/** The capture session's transitions as they drive the uploader (modules/capture-session.js): which
    session id a captured file carries, and what that means for dropping the outbox. */
module SessionProtocol {
  import opened Basics
  import opened UploadProtocol
  import opened UploadDurability

  /** The uploader's world, the current session id and the content hashes already captured under it.
      `used` (ids ever minted) and `stamped` (ids some file carries) are history. */
  datatype Session = Session(w: World, sid: string, seen: set<string>, used: set<string>, stamped: set<string>)

  /** A capture stamps the current id and enqueues in one stretch; `Supersede` forgets the hash of a
      URL captured again with other content; `Rotate` is the stretch after the new id was saved. A
      respawn restores the id, and whatever of the hashes had been persisted. */
  datatype SessionEvent =
    | Capture(contentHash: string, content: string)
    | Supersede(contentHash: string)
    | Rotate(id: string)
    | DropOutbox
    | ClearCaptured
    | Back(committed: nat, kept: set<string>)
    | Other(ev: Event)

  predicate IsPlain(ev: Event) {
    !ev.Enqueue? && !ev.ClearOutbox? && !ev.Respawn?
  }

  function Stamp(s: Session, contentHash: string, content: string): File {
    File(s.sid, contentHash, content, s.w.clears)
  }

  /** What an event of the session does to the uploader. */
  function Drives(s: Session, ev: SessionEvent): Option<Event> {
    match ev
    case Capture(contentHash, content) =>
      if contentHash in s.seen then None else Some(Enqueue(Stamp(s, contentHash, content)))
    case DropOutbox => Some(ClearOutbox)
    case Back(committed, _) => Some(Respawn(committed))
    case Other(ev) => if IsPlain(ev) then Some(ev) else None
    case _ => None
  }

  function SessionStep(s: Session, ev: SessionEvent): Session {
    var drives := Drives(s, ev);
    var t := if drives.Some? then s.(w := Step(s.w, drives.value)) else s;
    match ev
    case Capture(contentHash, _) =>
      if contentHash in s.seen then t else t.(seen := s.seen + {contentHash}, stamped := s.stamped + {s.sid})
    case Supersede(contentHash) => t.(seen := s.seen - {contentHash})
    case Rotate(id) => if id in s.used || !NoColon(id) then t else t.(sid := id, used := s.used + {id}, seen := {})
    case ClearCaptured => t.(seen := {})
    case Back(_, kept) => t.(seen := s.seen * kept)
    case _ => t
  }

  function SessionRun(s: Session, evs: seq<SessionEvent>): Session
    decreases evs
  {
    if evs == [] then s else SessionRun(SessionStep(s, evs[0]), evs[1..])
  }

  function Opened(hasStore: bool, id: string): Session {
    Session(Installed(hasStore), id, {}, {id}, {})
  }

  // ---- dropping the outbox -------------------------------------------------

  /** The batch that a drop of the outbox would make stale holds no file of the current session. */
  predicate DropsCleanly(s: Session) {
    forall g | g in Remaining(s.w.up) :: g.sessionId != s.sid
  }

  /** Every drop of the outbox in the run is clean. */
  predicate Tidy(s: Session, evs: seq<SessionEvent>)
    decreases evs
  {
    evs == [] || ((evs[0].DropOutbox? ==> DropsCleanly(s)) && Tidy(SessionStep(s, evs[0]), evs[1..]))
  }

  /** Nothing is captured between the rotation to a new session and the drop of the outbox. */
  predicate RotatedFirst(s: Session, evs: seq<SessionEvent>)
    decreases evs
  {
    evs == [] || ((evs[0].DropOutbox? ==> s.sid !in s.stamped) && RotatedFirst(SessionStep(s, evs[0]), evs[1..]))
  }

  ghost predicate Carries(files: seq<File>, stamped: set<string>) {
    forall f | f in files :: f.sessionId in stamped
  }

  ghost predicate StoreCarries(disk: Disk, ops: seq<StoreOp>, stamped: set<string>) {
    && (forall key | key in disk :: disk[key].sessionId in stamped)
    && (forall op | op in ops && op.Put? :: op.f.sessionId in stamped)
  }

  /** Every file anywhere carries an id that has been stamped; ids are minted once. */
  ghost predicate Stamped(s: Session) {
    && s.sid in s.used && s.stamped <= s.used && (forall id | id in s.used :: NoColon(id))
    && Carries(s.w.up.pending, s.stamped) && Carries(Remaining(s.w.up), s.stamped)
    && StoreCarries(s.w.disk, s.w.ops, s.stamped)
  }

  /** No file of a stale batch carries the current id. */
  ghost predicate Unmixed(s: Session) {
    Stale(s.w.up) ==> DropsCleanly(s)
  }

  lemma {:induction false} CompletedCarries(w: World, stamped: set<string>)
    requires StoreCarries(w.disk, w.ops, stamped)
    ensures StoreCarries(Completed(w).disk, Completed(w).ops, stamped)
  {
    if w.ops != [] {
      assert w.ops[0] in w.ops && forall op | op in w.ops[1..] :: op in w.ops;
    }
  }

  lemma {:induction false} CompletedManyCarries(w: World, k: nat, stamped: set<string>)
    requires StoreCarries(w.disk, w.ops, stamped)
    ensures StoreCarries(CompletedMany(w, k).disk, CompletedMany(w, k).ops, stamped)
    decreases k
  {
    if k > 0 {
      CompletedCarries(w, stamped);
      CompletedManyCarries(Completed(w), k - 1, stamped);
    }
  }

  lemma {:induction false} NewItemsCarry(items: seq<File>, known: set<string>, stamped: set<string>)
    requires Carries(items, stamped)
    ensures Carries(NewItems(items, known), stamped)
  {
    if items != [] {
      assert items[0] in items && forall f | f in items[1..] :: f in items;
      NewItemsCarry(items[1..], known + {OutboxKey(items[0])}, stamped);
      NewItemsCarry(items[1..], known, stamped);
    }
  }

  ghost predicate WorldCarries(w: World, stamped: set<string>) {
    Carries(w.up.pending, stamped) && Carries(Remaining(w.up), stamped) && StoreCarries(w.disk, w.ops, stamped)
  }

  lemma {:induction false} ReadCarries(w: World, items: seq<File>, stamped: set<string>)
    requires WorldCarries(w, stamped)
    ensures WorldCarries(Step(w, ReadDone(items)), stamped)
  {
    if w.ops != [] && w.ops[0].Read? && Lists(items, w.disk) {
      forall f | f in items ensures f.sessionId in stamped {
        assert f in Elements(items) && f in w.disk.Values;
        var key :| key in w.disk && w.disk[key] == f;
      }
      NewItemsCarry(items, Keys(w.up.pending), stamped);
      assert forall op | op in w.ops[1..] :: op in w.ops;
    }
  }

  lemma StartCarries(w: World, stamped: set<string>)
    requires WorldCarries(w, stamped)
    ensures WorldCarries(Step(w, Start), stamped)
  {
    var v := Step(w, Start);
    assert forall f | f in v.up.pending + Remaining(v.up) :: f in w.up.pending + Remaining(w.up);
  }

  /** Files only move: none appears that was not captured. */
  lemma {:induction false} PlainCarries(w: World, ev: Event, stamped: set<string>)
    requires WorldCarries(w, stamped) && IsPlain(ev)
    ensures WorldCarries(Step(w, ev), stamped)
  {
    match ev
    case ReadDone(items) => ReadCarries(w, items, stamped);
    case OpDone => CompletedCarries(w, stamped);
    case Start => StartCarries(w, stamped);
    case OpFail =>
      if w.ops != [] {
        assert forall op | op in w.ops[1..] :: op in w.ops;
      }
    case _ =>
  }

  /** What is stale after a plain event was stale before. */
  lemma {:induction false} PlainStale(w: World, ev: Event)
    requires IsPlain(ev) && Stale(Step(w, ev).up)
    ensures Stale(w.up) && forall f | f in Remaining(Step(w, ev).up) :: f in Remaining(w.up)
  {
  }

  // ---- the invariant -------------------------------------------------------

  ghost predicate Good(s: Session) {
    Stamped(s) && Unmixed(s) && Safe(s.w)
  }

  /** A capture shares no key with a stale batch. */
  lemma CaptureIsHygienic(s: Session, contentHash: string, content: string)
    requires Stamped(s) && Unmixed(s)
    ensures Hygienic(s.w, Enqueue(Stamp(s, contentHash, content)))
  {
    if Stale(s.w.up) {
      forall g | g in Remaining(s.w.up) ensures OutboxKey(g) != OutboxKey(Stamp(s, contentHash, content)) {
        KeysOfDifferentSessions(g, Stamp(s, contentHash, content));
      }
    }
  }

  lemma {:induction false} CaptureGood(s: Session, contentHash: string, content: string)
    requires Good(s)
    ensures Good(SessionStep(s, Capture(contentHash, content)))
  {
    CaptureIsHygienic(s, contentHash, content);
    SafeKept(s.w, Enqueue(Stamp(s, contentHash, content)));
  }

  lemma {:induction false} DropGood(s: Session)
    requires Good(s) && DropsCleanly(s)
    ensures Good(SessionStep(s, DropOutbox))
  {
    SafeKept(s.w, ClearOutbox);
  }

  lemma {:induction false} BackGood(s: Session, committed: nat, kept: set<string>)
    requires Good(s)
    ensures Good(SessionStep(s, Back(committed, kept)))
  {
    SafeKept(s.w, Respawn(committed));
    if committed <= |s.w.ops| {
      CompletedManyCarries(s.w, committed, s.stamped);
    }
  }

  lemma {:induction false} PlainGood(s: Session, ev: Event)
    requires Good(s) && IsPlain(ev)
    ensures Good(SessionStep(s, Other(ev)))
  {
    SafeKept(s.w, ev);
    PlainCarries(s.w, ev, s.stamped);
    PlainUnmixed(s, ev);
  }

  lemma PlainUnmixed(s: Session, ev: Event)
    requires Unmixed(s) && IsPlain(ev)
    ensures Unmixed(SessionStep(s, Other(ev)))
  {
    if Stale(Step(s.w, ev).up) {
      PlainStale(s.w, ev);
    }
  }

  /** A new id is no file's yet. */
  lemma {:induction false} RotateGood(s: Session, id: string)
    requires Good(s)
    ensures Good(SessionStep(s, Rotate(id)))
  {
  }

  lemma {:induction false} StepGood(s: Session, ev: SessionEvent)
    requires Good(s) && (ev.DropOutbox? ==> DropsCleanly(s))
    ensures Good(SessionStep(s, ev))
  {
    match ev
    case Capture(contentHash, content) => CaptureGood(s, contentHash, content);
    case DropOutbox => DropGood(s);
    case Back(committed, kept) => BackGood(s, committed, kept);
    case Rotate(id) => RotateGood(s, id);
    case Other(plain) =>
      if IsPlain(plain) {
        PlainGood(s, plain);
      }
    case _ =>
  }

  lemma {:induction false} RunGood(s: Session, evs: seq<SessionEvent>)
    requires Good(s) && Tidy(s, evs)
    ensures Good(SessionRun(s, evs))
    decreases evs
  {
    if evs != [] {
      StepGood(s, evs[0]);
      RunGood(SessionStep(s, evs[0]), evs[1..]);
    }
  }

  lemma {:induction false} RotatedFirstIsTidy(s: Session, evs: seq<SessionEvent>)
    requires Good(s) && RotatedFirst(s, evs)
    ensures Tidy(s, evs)
    decreases evs
  {
    if evs != [] {
      StepGood(s, evs[0]);
      RotatedFirstIsTidy(SessionStep(s, evs[0]), evs[1..]);
    }
  }

  // ---- what it means -------------------------------------------------------

  /** The uploader's events in a run of the session. */
  function Lifted(s: Session, evs: seq<SessionEvent>): seq<Event>
    decreases evs
  {
    if evs == [] then []
    else (match Drives(s, evs[0]) case Some(ev) => [ev] case None => []) + Lifted(SessionStep(s, evs[0]), evs[1..])
  }

  lemma {:induction false} LiftedRuns(s: Session, evs: seq<SessionEvent>)
    ensures SessionRun(s, evs).w == Run(s.w, Lifted(s, evs))
    decreases evs
  {
    if evs != [] {
      var drives := Drives(s, evs[0]);
      var next := SessionStep(s, evs[0]);
      LiftedRuns(next, evs[1..]);
      if drives.Some? {
        assert Lifted(s, evs) == [drives.value] + Lifted(next, evs[1..]);
        RunAppend(s.w, [drives.value], Lifted(next, evs[1..]));
        RunOne(s.w, drives.value);
      } else {
        assert Lifted(s, evs) == Lifted(next, evs[1..]);
      }
    }
  }

  /** Seen from the uploader, a run with clean drops never reuses a doomed key. */
  lemma {:induction false} TidyIsHygienic(s: Session, evs: seq<SessionEvent>)
    requires Good(s) && Tidy(s, evs)
    ensures AllHygienic(s.w, Lifted(s, evs))
    decreases evs
  {
    if evs != [] {
      var drives, next := Drives(s, evs[0]), SessionStep(s, evs[0]);
      StepGood(s, evs[0]);
      TidyIsHygienic(next, evs[1..]);
      if drives.Some? {
        if evs[0].Capture? {
          CaptureIsHygienic(s, evs[0].contentHash, evs[0].content);
        }
        assert Hygienic(s.w, drives.value) && next.w == Step(s.w, drives.value);
        HygienicHead(s.w, drives.value, Lifted(next, evs[1..]));
      } else {
        assert Lifted(s, evs) == Lifted(next, evs[1..]);
      }
    }
  }

  lemma HygienicHead(w: World, ev: Event, rest: seq<Event>)
    requires Hygienic(w, ev) && AllHygienic(Step(w, ev), rest)
    ensures AllHygienic(w, [ev] + rest)
  {
    assert ([ev] + rest)[1..] == rest;
  }

  /** If nothing is captured between a rotation and the drop of the outbox, no run of the session,
      with any number of respawns, reuses a doomed key or loses a file whose put completed. */
  lemma RotatingSessionsLoseNothing(hasStore: bool, id: string, evs: seq<SessionEvent>)
    requires NoColon(id) && RotatedFirst(Opened(hasStore, id), evs)
    ensures var s := Opened(hasStore, id);
      && SessionRun(s, evs).w == Run(Installed(hasStore), Lifted(s, evs))
      && AllHygienic(Installed(hasStore), Lifted(s, evs)) && Durable(SessionRun(s, evs).w)
  {
    RotatedFirstIsTidy(Opened(hasStore, id), evs);
    TidyIsHygienic(Opened(hasStore, id), evs);
    NothingPersistedIsLost(hasStore, Lifted(Opened(hasStore, id), evs));
    LiftedRuns(Opened(hasStore, id), evs);
  }

  function Others(evs: seq<Event>): seq<SessionEvent> {
    if evs == [] then [] else [Other(evs[0])] + Others(evs[1..])
  }

  lemma {:induction false} OthersRun(s: Session, evs: seq<Event>)
    requires Plain(evs)
    ensures SessionRun(s, Others(evs)).w == Run(s.w, evs) && Tidy(s, Others(evs))
    decreases evs
  {
    if evs != [] {
      assert evs[0] in evs && forall ev | ev in evs[1..] :: ev in evs;
      OthersRun(SessionStep(s, Other(evs[0])), evs[1..]);
      assert Others(evs)[0] == Other(evs[0]) && Others(evs)[1..] == Others(evs[1..]);
    }
  }

  /** After an unclean drop: clear the captured files, capture the same content again, and let the
      stale batch fail. */
  lemma UncleanDropLoses(s: Session) returns (more: seq<SessionEvent>)
    requires Good(s) && s.w.up.hasStore && Read !in s.w.ops && !DropsCleanly(s)
    ensures Tidy(SessionStep(s, DropOutbox), more) && !Durable(SessionRun(SessionStep(s, DropOutbox), more).w)
  {
    var g :| g in Remaining(s.w.up) && g.sessionId == s.sid;
    var v := SessionStep(s, DropOutbox);
    var cleared := SessionStep(v, ClearCaptured);
    var f := Stamp(cleared, g.contentHash, "");
    var captured := SessionStep(cleared, Capture(g.contentHash, ""));
    assert v.w == ClearedNow(s.w) && Stale(v.w.up) && Remaining(v.w.up) == Remaining(s.w.up);
    assert OutboxKey(f) == OutboxKey(g) && OutboxKey(f) in Keys(Remaining(v.w.up));
    var evs := DoomedKeyLoses(v.w, f);
    OthersRun(captured, evs);
    more := [ClearCaptured, Capture(g.contentHash, "")] + Others(evs);
    assert more[1..][0] == Capture(g.contentHash, "") && more[1..][1..] == Others(evs);
    assert SessionRun(v, more) == SessionRun(cleared, more[1..]) == SessionRun(captured, Others(evs));
    assert Tidy(cleared, more[1..]);
  }

  /** Dropping the outbox loses nothing for good, whatever the session does next short of another
      unclean drop, exactly when the batch it makes stale holds no file of the current session. */
  lemma DropIsSafeIff(id: string, evs: seq<SessionEvent>)
    requires NoColon(id) && Tidy(Opened(true, id), evs)
    requires Read !in SessionRun(Opened(true, id), evs).w.ops
    ensures var s := SessionRun(Opened(true, id), evs); var v := SessionStep(s, DropOutbox);
      (forall more | Tidy(v, more) :: Durable(SessionRun(v, more).w)) <==> DropsCleanly(s)
  {
    var s := SessionRun(Opened(true, id), evs);
    RunGood(Opened(true, id), evs);
    StoreStays(Opened(true, id), evs);
    var v := SessionStep(s, DropOutbox);
    if DropsCleanly(s) {
      StepGood(s, DropOutbox);
      forall more | Tidy(v, more) ensures Durable(SessionRun(v, more).w) {
        RunGood(v, more);
      }
    } else {
      var more := UncleanDropLoses(s);
    }
  }

  lemma {:induction false} CompletedManyStore(w: World, k: nat)
    ensures CompletedMany(w, k).up == w.up
    decreases k
  {
    if k > 0 {
      CompletedManyStore(Completed(w), k - 1);
    }
  }

  lemma {:induction false} StoreStaysNow(w: World, ev: Event)
    ensures Step(w, ev).up.hasStore == w.up.hasStore
  {
    if ev.Respawn? {
      CompletedManyStore(w, ev.committed);
    }
  }

  lemma {:induction false} StoreStays(s: Session, evs: seq<SessionEvent>)
    ensures SessionRun(s, evs).w.up.hasStore == s.w.up.hasStore
    decreases evs
  {
    if evs != [] {
      var drives := Drives(s, evs[0]);
      if drives.Some? {
        StoreStaysNow(s.w, drives.value);
      }
      StoreStays(SessionStep(s, evs[0]), evs[1..]);
    }
  }

  function Mixing(id: string, contentHash: string): seq<SessionEvent> {
    [Rotate(id), Capture(contentHash, ""), Other(Start)]
  }

  predicate NoDrop(evs: seq<SessionEvent>) {
    forall ev | ev in evs :: !ev.DropOutbox?
  }

  lemma {:induction false} NoDropIsTidy(s: Session, evs: seq<SessionEvent>)
    requires NoDrop(evs)
    ensures Tidy(s, evs)
    decreases evs
  {
    if evs != [] {
      NoDropIsTidy(SessionStep(s, evs[0]), evs[1..]);
    }
  }

  /** A file captured under the new id is in flight. */
  lemma MixedBatch(a: string, b: string, contentHash: string)
    requires NoColon(b) && a != b
    ensures var s := SessionRun(Opened(true, a), Mixing(b, contentHash)); var f := File(b, contentHash, "", 0);
      s.w.up.hasStore && s.w.ops == [Put(f)] && Remaining(s.w.up) == [f] && s.sid == b
  {
    var s1 := SessionStep(Opened(true, a), Rotate(b));
    var s2 := SessionStep(s1, Capture(contentHash, ""));
    var s3 := SessionStep(s2, Other(Start));
    assert s2.w.up.pending == [File(b, contentHash, "", 0)];
    var evs := Mixing(b, contentHash);
    assert evs[1..][1..][0] == Other(Start) && evs[1..][0] == Capture(contentHash, "");
    assert SessionRun(s2, evs[1..][1..]) == s3;
    assert SessionRun(s1, evs[1..]) == s3;
  }

  /** A file captured while the drop still waits for storage: a run of the transitions that loses a
      persisted file. */
  lemma CaptureBeforeDropLoses(a: string, b: string, contentHash: string) returns (evs: seq<SessionEvent>)
    requires NoColon(a) && NoColon(b) && a != b
    ensures Mixing(b, contentHash) + [DropOutbox] <= evs && !Durable(SessionRun(Opened(true, a), evs).w)
  {
    MixedBatch(a, b, contentHash);
    NoDropIsTidy(Opened(true, a), Mixing(b, contentHash));
    RunGood(Opened(true, a), Mixing(b, contentHash));
    var s := SessionRun(Opened(true, a), Mixing(b, contentHash));
    assert File(b, contentHash, "", 0) in Remaining(s.w.up);
    var more := UncleanDropLoses(s);
    evs := Mixing(b, contentHash) + ([DropOutbox] + more);
    SessionRunAppend(Opened(true, a), Mixing(b, contentHash), [DropOutbox] + more);
    assert ([DropOutbox] + more)[1..] == more;
  }

  lemma {:induction false} SessionRunAppend(s: Session, a: seq<SessionEvent>, b: seq<SessionEvent>)
    ensures SessionRun(s, a + b) == SessionRun(SessionRun(s, a), b)
    decreases a
  {
    if a == [] {
      assert a + b == b;
    } else {
      assert (a + b)[1..] == a[1..] + b;
      SessionRunAppend(SessionStep(s, a[0]), a[1..], b);
    }
  }
}
