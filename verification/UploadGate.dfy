/** The analysis gate across respawns: what an idle uploader with an empty queue says about
    everything the outbox has ever taken (workspace-client.js, batch-uploader.js, background.js). */
module UploadGate {
  import opened Basics
  import opened UploadProtocol
  import opened UploadOrder
  import opened UploadDurability
  import opened SessionProtocol

  /** What lets an analysis start: nothing queued and no upload running. */
  predicate GateOpen(w: World) {
    w.up.flight.Idle? && w.up.pending == []
  }

  /** Every key persisted since the last clear began, or on its way to the store, has been
      acknowledged or permanently rejected. */
  ghost predicate AllSettled(w: World) {
    && w.durable <= w.released
    && forall i | 0 <= i < |w.ops| && w.ops[i].Put? && w.ops[i].f.born == w.clears :: OutboxKey(w.ops[i].f) in w.released
  }

  /** The gate tells the truth. */
  ghost predicate GateSound(w: World) {
    GateOpen(w) ==> AllSettled(w)
  }

  // ---- what memory still holds ---------------------------------------------

  /** The keys that are settled, queued or on the wire. */
  function InHand(w: World): set<string> {
    w.released + Keys(w.up.pending) + Keys(OnWire(w.up))
  }

  /** The puts of this generation that are outstanding are in hand, and none is from a later one. */
  ghost predicate PutsInHand(w: World) {
    && (forall i | 0 <= i < |w.ops| && w.ops[i].Put? :: w.ops[i].f.born <= w.clears)
    && (forall i | 0 <= i < |w.ops| && w.ops[i].Put? && w.ops[i].f.born == w.clears :: OutboxKey(w.ops[i].f) in InHand(w))
  }

  ghost predicate Held(w: World) {
    w.durable <= InHand(w) && PutsInHand(w)
  }

  lemma HeldIsSound(w: World)
    requires Held(w)
    ensures GateSound(w)
  {
  }

  lemma KeysConcat(a: seq<File>, b: seq<File>)
    ensures Keys(a + b) == Keys(a) + Keys(b)
  {
    assert forall f :: f in a + b <==> f in a || f in b;
  }

  /** Nothing leaves one's hands while the store side stays as it is or only gets shorter. */
  lemma StillInHand(w: World, v: World)
    requires PutsInHand(w) && InHand(w) <= InHand(v) && v.clears == w.clears
    requires forall op | op in v.ops :: op in w.ops || (op.Put? && op.f.born == v.clears && OutboxKey(op.f) in InHand(v)) || !op.Put?
    ensures PutsInHand(v)
  {
    forall i | 0 <= i < |v.ops| && v.ops[i].Put?
      ensures v.ops[i].f.born <= v.clears && (v.ops[i].f.born == v.clears ==> OutboxKey(v.ops[i].f) in InHand(v))
    {
      assert v.ops[i] in v.ops;
      if v.ops[i] in w.ops {
        var j :| 0 <= j < |w.ops| && w.ops[j] == v.ops[i];
      }
    }
  }

  lemma StartInHand(w: World)
    ensures InHand(Step(w, Start)) == InHand(w)
  {
    if CanStart(w.up) {
      var n := BatchLength(w.up);
      KeysConcat(w.up.pending[..n], w.up.pending[n..]);
      assert w.up.pending == w.up.pending[..n] + w.up.pending[n..];
      assert OnWire(w.up) == [] && OnWire(Step(w, Start).up) == w.up.pending[..n];
      assert Keys([]) == {};
    }
  }

  lemma ReplyInHand(w: World, outcome: Outcome)
    ensures InHand(w) <= InHand(AfterReply(w, outcome))
  {
    if w.up.flight.Sent? && Current(w.up) {
      KeysConcat(w.up.flight.batch, w.up.pending);
    }
  }

  lemma QueuedInHand(w: World, more: seq<File>)
    ensures var v := w.(up := w.up.(pending := w.up.pending + more)); InHand(v) == InHand(w) + Keys(more)
  {
    KeysConcat(w.up.pending, more);
  }

  lemma EnqueuePuts(w: World, f: File)
    requires PutsInHand(w)
    ensures var v := Step(w, Enqueue(f)); PutsInHand(v) && InHand(w) <= InHand(v)
  {
    QueuedInHand(w, [f]);
    assert OutboxKey(f) in Keys([f]);
    StillInHand(w, Step(w, Enqueue(f)));
  }

  lemma ReadPuts(w: World, items: seq<File>)
    requires PutsInHand(w)
    ensures var v := Step(w, ReadDone(items)); PutsInHand(v) && InHand(w) <= InHand(v)
  {
    QueuedInHand(w, NewItems(items, Keys(w.up.pending)));
    StillInHand(w, Step(w, ReadDone(items)));
  }

  lemma ReplyPuts(w: World, outcome: Outcome)
    requires PutsInHand(w)
    ensures PutsInHand(AfterReply(w, outcome))
  {
    ReplyInHand(w, outcome);
    StillInHand(w, AfterReply(w, outcome));
  }

  /** The outstanding puts stay in hand, come what may; a respawn forgets them on both sides. */
  lemma PutsKept(w: World, ev: Event)
    requires PutsInHand(w)
    ensures PutsInHand(Step(w, ev))
  {
    match ev
    case Enqueue(f) => EnqueuePuts(w, f);
    case Start =>
      StartInHand(w);
      StillInHand(w, Step(w, Start));
    case Reply(response) => ReplyPuts(w, OutcomeOf(response));
    case ReadDone(items) => ReadPuts(w, items);
    case Respawn(committed) => RespawnPuts(w, committed);
    case ClearOutbox =>
    case _ => StillInHand(w, Step(w, ev));
  }

  lemma RespawnPuts(w: World, committed: nat)
    requires PutsInHand(w)
    ensures PutsInHand(Step(w, Respawn(committed)))
  {
  }

  /** Every event but a respawn keeps the persisted keys in hand: a put that completes was. */
  lemma HeldKept(w: World, ev: Event)
    requires Held(w) && !ev.Respawn?
    ensures Held(Step(w, ev))
  {
    PutsKept(w, ev);
    match ev
    case Enqueue(f) => EnqueuePuts(w, f);
    case Start => StartInHand(w);
    case Reply(response) => ReplyInHand(w, OutcomeOf(response));
    case ReadDone(items) => ReadPuts(w, items);
    case _ =>
  }

  predicate NoRespawn(evs: seq<Event>) {
    forall ev | ev in evs :: !ev.Respawn?
  }

  lemma {:induction false} HeldFrom(w: World, evs: seq<Event>)
    requires Held(w) && NoRespawn(evs)
    ensures Held(Run(w, evs))
    decreases evs
  {
    if evs != [] {
      assert evs[0] in evs && forall ev | ev in evs[1..] :: ev in evs;
      HeldKept(w, evs[0]);
      HeldFrom(Step(w, evs[0]), evs[1..]);
    }
  }

  /** In a worker that has not been replaced the gate is sound, whatever happens. */
  lemma GateSoundWithoutRespawn(hasStore: bool, evs: seq<Event>)
    requires NoRespawn(evs)
    ensures GateSound(Run(Installed(hasStore), evs))
  {
    HeldFrom(Installed(hasStore), evs);
    HeldIsSound(Run(Installed(hasStore), evs));
  }

  // ---- what a settled batch leaves behind ----------------------------------

  /** The keys an answered batch has yet to delete. */
  function ToForget(u: Uploader): set<string> {
    if u.flight.Forgetting? then Keys(u.flight.rest) else {}
  }

  /** No put of the key is outstanding behind the first `n` operations. */
  predicate NoPutFrom(ops: seq<StoreOp>, n: nat, key: string) {
    forall i | n <= i < |ops| && ops[i].Put? :: OutboxKey(ops[i].f) != key
  }

  /** The key is yet to be deleted, its delete is outstanding with no put behind it, or it is gone. */
  ghost predicate Leaving(w: World, key: string) {
    || key in ToForget(w.up)
    || (exists i | 0 <= i < |w.ops| :: w.ops[i] == Delete(key) && NoPutFrom(w.ops, i + 1, key))
    || (key !in w.disk && NoPutFrom(w.ops, 0, key))
  }

  /** Nothing is captured, cleared or lost, and no store operation fails. */
  predicate Undisturbed(evs: seq<Event>) {
    forall ev | ev in evs :: !ev.Enqueue? && !ev.ClearOutbox? && !ev.Respawn? && !ev.OpFail?
  }

  lemma HeadLeaves(w: World, v: World, key: string)
    requires Leaving(w, key) && w.ops != [] && v.ops == w.ops[1..] && v.up.flight == w.up.flight
    requires v.disk == Applied(w.disk, w.ops[0]) && !w.ops[0].Clear?
    ensures Leaving(v, key)
  {
    assert forall i | 0 <= i < |v.ops| :: v.ops[i] == w.ops[i + 1];
    if i :| 0 <= i < |w.ops| && w.ops[i] == Delete(key) && NoPutFrom(w.ops, i + 1, key) {
      if i > 0 {
        assert v.ops[i - 1] == Delete(key) && NoPutFrom(v.ops, i, key);
      } else {
        assert key !in v.disk && NoPutFrom(v.ops, 0, key);
      }
    } else if key !in ToForget(w.up) {
      assert w.ops[0].Put? ==> OutboxKey(w.ops[0].f) != key;
      assert key !in v.disk && NoPutFrom(v.ops, 0, key);
    }
  }

  lemma BehindLeaves(w: World, v: World, op: StoreOp, key: string)
    requires Leaving(w, key) && v.disk == w.disk && v.ops == w.ops + [op] && !op.Put?
    requires ToForget(w.up) <= ToForget(v.up) + (if op.Delete? then {op.key} else {})
    ensures Leaving(v, key)
  {
    assert forall i | 0 <= i < |w.ops| :: v.ops[i] == w.ops[i];
    if op == Delete(key) {
      assert v.ops[|w.ops|] == Delete(key) && NoPutFrom(v.ops, |w.ops| + 1, key);
    } else if i :| 0 <= i < |w.ops| && w.ops[i] == Delete(key) && NoPutFrom(w.ops, i + 1, key) {
      assert v.ops[i] == Delete(key) && NoPutFrom(v.ops, i + 1, key);
    } else if key !in ToForget(w.up) {
      assert NoPutFrom(v.ops, 0, key);
    }
  }

  lemma ForgetLeaves(w: World, key: string)
    requires Leaving(w, key) && w.up.hasStore
    ensures Leaving(Step(w, ForgetNext), key)
  {
    if StillForgetting(w.up) {
      var rest := w.up.flight.rest;
      assert rest == [rest[0]] + rest[1..];
      KeysConcat([rest[0]], rest[1..]);
      assert Keys([rest[0]]) == {OutboxKey(rest[0])};
      BehindLeaves(w, Step(w, ForgetNext), Delete(OutboxKey(rest[0])), key);
    }
  }

  lemma StillLeaving(w: World, ev: Event, key: string)
    requires Leaving(w, key) && w.up.hasStore && (forall i | 0 <= i < |w.ops| :: !w.ops[i].Clear?)
    requires !ev.Enqueue? && !ev.ClearOutbox? && !ev.Respawn? && !ev.OpFail?
    ensures var v := Step(w, ev); Leaving(v, key) && v.up.hasStore && forall i | 0 <= i < |v.ops| :: !v.ops[i].Clear?
  {
    match ev
    case ForgetNext => ForgetLeaves(w, key);
    case StartRead =>
      if Read !in w.ops {
        BehindLeaves(w, Step(w, StartRead), Read, key);
      }
    case ReadDone(items) =>
      if Step(w, ev) != w {
        HeadLeaves(w, Step(w, ev), key);
      }
    case OpDone =>
      if Step(w, ev) != w {
        HeadLeaves(w, Step(w, ev), key);
      }
    case _ =>
  }

  lemma {:induction false} LeavingFrom(w: World, evs: seq<Event>, key: string)
    requires Leaving(w, key) && w.up.hasStore && (forall i | 0 <= i < |w.ops| :: !w.ops[i].Clear?) && Undisturbed(evs)
    ensures Leaving(Run(w, evs), key)
    decreases evs
  {
    if evs != [] {
      assert evs[0] in evs && forall ev | ev in evs[1..] :: ev in evs;
      StillLeaving(w, evs[0], key);
      LeavingFrom(Step(w, evs[0]), evs[1..], key);
    }
  }

  /** Once a batch has been acknowledged or rejected and the store has caught up, none of its keys is in the
      outbox, whatever else the uploader does meanwhile. */
  lemma SettledBatchLeavesTheStore(w: World, response: Response, evs: seq<Event>, f: File)
    requires w.up.hasStore && w.up.flight.Sent? && f in w.up.flight.batch && (Delivers(response) || Refuses(response))
    requires (forall i | 0 <= i < |w.ops| :: !w.ops[i].Clear?) && Undisturbed(evs)
    requires var r := Run(Step(w, Reply(response)), evs); r.ops == [] && !r.up.flight.Forgetting?
    ensures OutboxKey(f) !in Run(Step(w, Reply(response)), evs).disk
  {
    var answered := Step(w, Reply(response));
    assert answered.up.flight.Forgetting? && OutboxKey(f) in Keys(answered.up.flight.rest);
    LeavingFrom(answered, evs, OutboxKey(f));
  }

  // ---- the read-back -------------------------------------------------------

  /** What is captured carries its content hash. */
  predicate Hashed(evs: seq<Event>) {
    forall ev | ev in evs && ev.Enqueue? :: ev.f.contentHash != ""
  }

  ghost predicate StoreHashed(disk: Disk, ops: seq<StoreOp>) {
    && (forall key | key in disk :: disk[key].contentHash != "")
    && (forall op | op in ops && op.Put? :: op.f.contentHash != "")
  }

  lemma CompletedHashed(w: World)
    requires StoreHashed(w.disk, w.ops)
    ensures StoreHashed(Completed(w).disk, Completed(w).ops)
  {
    if w.ops != [] {
      assert w.ops[0] in w.ops && forall op | op in w.ops[1..] :: op in w.ops;
    }
  }

  lemma {:induction false} CompletedManyHashed(w: World, k: nat)
    requires StoreHashed(w.disk, w.ops)
    ensures StoreHashed(CompletedMany(w, k).disk, CompletedMany(w, k).ops)
    decreases k
  {
    if k > 0 {
      CompletedHashed(w);
      CompletedManyHashed(Completed(w), k - 1);
    }
  }

  lemma HashedKept(w: World, ev: Event)
    requires StoreHashed(w.disk, w.ops) && (ev.Enqueue? ==> ev.f.contentHash != "")
    ensures StoreHashed(Step(w, ev).disk, Step(w, ev).ops)
  {
    assert forall op | w.ops != [] && op in w.ops[1..] :: op in w.ops;
    match ev
    case OpDone => CompletedHashed(w);
    case Respawn(committed) => CompletedManyHashed(w, committed);
    case _ =>
  }

  /** A store that can be read back in full. */
  ghost predicate Readable(w: World) {
    Safe(w) && KeyedByContent(w) && StoreHashed(w.disk, w.ops) && PutsInHand(w)
  }

  lemma ReadableKept(w: World, ev: Event)
    requires Readable(w) && Hygienic(w, ev) && (ev.Enqueue? ==> ev.f.contentHash != "")
    ensures Readable(Step(w, ev))
  {
    SafeKept(w, ev);
    HashedKept(w, ev);
    PutsKept(w, ev);
    KeyedFrom(w, [ev]);
    RunOne(w, ev);
  }

  predicate ReadsBack(w: World, ev: Event) {
    ev.ReadDone? && w.ops != [] && w.ops[0].Read? && Lists(ev.items, w.disk)
  }

  /** A completed read-back takes everything persisted and unsettled in hand again. */
  lemma ReadBackHolds(w: World, ev: Event)
    requires Readable(w) && ReadsBack(w, ev)
    ensures Held(Step(w, ev))
  {
    ReadPuts(w, ev.items);
    var v := Step(w, ev);
    forall key | key in v.durable ensures key in InHand(v) {
      if key !in w.released {
        var f := w.disk[key];
        assert f in w.disk.Values && f in Elements(ev.items);
        NewItemsCover(ev.items, Keys(w.up.pending), f);
        KeysConcat(w.up.pending, NewItems(ev.items, Keys(w.up.pending)));
      }
    }
  }

  /** Whether everything is in hand after an event: a respawn empties the hands, a read-back fills them. */
  predicate CaughtUp(w: World, ev: Event, before: bool) {
    if ev.Respawn? && ev.committed <= |w.ops| then false else before || ReadsBack(w, ev)
  }

  /** A read-back has completed since the last respawn of the run, if there was one. */
  predicate ReadBackLast(w: World, evs: seq<Event>, before: bool)
    decreases evs
  {
    if evs == [] then before else ReadBackLast(Step(w, evs[0]), evs[1..], CaughtUp(w, evs[0], before))
  }

  lemma {:induction false} CaughtUpHolds(w: World, ev: Event, before: bool)
    requires Readable(w) && (before ==> Held(w)) && CaughtUp(w, ev, before)
    ensures Held(Step(w, ev))
  {
    if ReadsBack(w, ev) {
      ReadBackHolds(w, ev);
    } else if ev.Respawn? {
      assert Step(w, ev) == w;
    } else {
      HeldKept(w, ev);
    }
  }

  lemma {:induction false} ReadableFrom(w: World, evs: seq<Event>, before: bool)
    requires Readable(w) && (before ==> Held(w)) && AllHygienic(w, evs) && Hashed(evs)
    ensures Readable(Run(w, evs)) && (ReadBackLast(w, evs, before) ==> Held(Run(w, evs)))
    decreases evs
  {
    if evs != [] {
      var ev := evs[0];
      assert ev in evs && forall e | e in evs[1..] :: e in evs;
      ReadableKept(w, ev);
      if CaughtUp(w, ev, before) {
        CaughtUpHolds(w, ev, before);
      }
      ReadableFrom(Step(w, ev), evs[1..], CaughtUp(w, ev, before));
    }
  }

  /** Across any number of respawns: in a run that reuses no doomed key and in which a read-back has
      completed since the last of them, an idle uploader with an empty queue means that every key put
      into the outbox since the last clear has been acknowledged or permanently rejected. */
  lemma GateSeesEverything(hasStore: bool, evs: seq<Event>)
    requires AllHygienic(Installed(hasStore), evs) && Hashed(evs) && ReadBackLast(Installed(hasStore), evs, true)
    ensures GateSound(Run(Installed(hasStore), evs))
  {
    ReadableFrom(Installed(hasStore), evs, true);
    HeldIsSound(Run(Installed(hasStore), evs));
  }

  /** So it does in every run of the session that captures nothing between rotating its id and dropping
      the outbox. */
  lemma SessionGateSeesEverything(hasStore: bool, id: string, evs: seq<SessionEvent>)
    requires NoColon(id) && RotatedFirst(Opened(hasStore, id), evs)
    requires var lifted := Lifted(Opened(hasStore, id), evs); Hashed(lifted) && ReadBackLast(Installed(hasStore), lifted, true)
    ensures GateSound(SessionRun(Opened(hasStore, id), evs).w)
  {
    RotatingSessionsLoseNothing(hasStore, id, evs);
    GateSeesEverything(hasStore, Lifted(Opened(hasStore, id), evs));
  }

  // ---- when the read-back fails --------------------------------------------

  /** The run up to a respawn and the read-back it begins. */
  function Reopened(evs: seq<Event>, committed: nat): seq<Event> {
    evs + [Respawn(committed), StartRead]
  }

  lemma ReopenedReading(evs: seq<Event>, committed: nat)
    requires committed <= |Run(Installed(true), evs).ops|
    requires AllHygienic(Installed(true), Reopened(evs, committed)) && Hashed(evs)
    ensures var w := Run(Installed(true), Reopened(evs, committed));
      Readable(w) && w.ops == [Read] && w.up.flight.Idle? && w.up.pending == []
  {
    var dead := Run(Installed(true), evs);
    var back := Step(dead, Respawn(committed));
    RunAppend(Installed(true), evs, [Respawn(committed), StartRead]);
    assert [Respawn(committed), StartRead][1..] == [StartRead];
    RunOne(back, StartRead);
    StoreStaysOn(Installed(true), evs);
    ReadableFrom(Installed(true), Reopened(evs, committed), true);
  }

  lemma {:induction false} StoreStaysOn(w: World, evs: seq<Event>)
    requires w.up.hasStore
    ensures Run(w, evs).up.hasStore
    decreases evs
  {
    if evs != [] {
      if evs[0].Respawn? {
        CompletedManyFrame(w, evs[0].committed);
      }
      StoreStaysOn(Step(w, evs[0]), evs[1..]);
    }
  }

  /** How a worker's start-up read-back ends decides whether its gate can be trusted: the gate is sound in
      all that follows in that worker exactly when the read-back completed or nothing was left to read. */
  lemma StartUpDecides(evs: seq<Event>, committed: nat, ending: Event)
    requires committed <= |Run(Installed(true), evs).ops|
    requires AllHygienic(Installed(true), Reopened(evs, committed)) && Hashed(evs)
    requires ending.OpFail? || ReadsBack(Run(Installed(true), Reopened(evs, committed)), ending)
    ensures var w := Run(Installed(true), Reopened(evs, committed));
      (forall more | NoRespawn(more) :: GateSound(Run(Step(w, ending), more))) <==> ending.ReadDone? || AllSettled(w)
  {
    ReopenedReading(evs, committed);
    var w := Run(Installed(true), Reopened(evs, committed));
    var v := Step(w, ending);
    if ending.ReadDone? {
      ReadBackHolds(w, ending);
    } else {
      assert v == w.(ops := []);
    }
    if ending.ReadDone? || AllSettled(w) {
      forall more | NoRespawn(more) ensures GateSound(Run(v, more)) {
        HeldFrom(v, more);
        HeldIsSound(Run(v, more));
      }
    } else {
      assert NoRespawn([]) && Run(v, []) == v && !GateSound(v);
    }
  }

  /** A worker with one file, queued and persisted. */
  function OnePersisted(f: File): World {
    Installed(true).(up := FreshUploader(None, true).(pending := [f]), disk := map[OutboxKey(f) := f],
                     arrived := [f], durable := {OutboxKey(f)})
  }

  lemma OnePersists(f: File)
    requires f.born == 0
    ensures var evs := [Enqueue(f), OpDone];
      Run(Installed(true), evs) == OnePersisted(f) && AllHygienic(Installed(true), evs)
  {
    var queued := Step(Installed(true), Enqueue(f));
    assert queued.ops == [Put(f)] && Step(queued, OpDone) == OnePersisted(f);
    assert [Enqueue(f), OpDone][1..] == [OpDone];
    RunOne(queued, OpDone);
  }

  lemma ReadBackFails(f: File)
    ensures var evs := [Respawn(0), StartRead, OpFail]; var w := OnePersisted(f);
      Run(w, evs) == w.(up := FreshUploader(None, true), arrived := []) && AllHygienic(w, evs)
  {
    var evs := [Respawn(0), StartRead, OpFail];
    var back := Step(OnePersisted(f), Respawn(0));
    assert back == OnePersisted(f).(up := FreshUploader(None, true), arrived := []);
    assert evs[1..] == [StartRead, OpFail] && evs[1..][1..] == [OpFail];
    RunOne(Step(back, StartRead), OpFail);
    assert Run(back, evs[1..]) == Step(Step(back, StartRead), OpFail) == back;
    assert AllHygienic(back, evs[1..]);
  }

  lemma {:induction false} HygienicAppend(w: World, a: seq<Event>, b: seq<Event>)
    requires AllHygienic(w, a) && AllHygienic(Run(w, a), b)
    ensures AllHygienic(w, a + b)
    decreases a
  {
    if a == [] {
      assert a + b == b;
    } else {
      assert (a + b)[1..] == a[1..] + b;
      HygienicAppend(Step(w, a[0]), a[1..], b);
    }
  }

  /** A file is persisted, the worker is replaced before sending it, and reading the outbox back fails:
      the gate opens although the file is in the outbox and nobody has taken it. */
  lemma FailedReadBackOpensGate(f: File)
    requires f.born == 0
    ensures var evs := [Enqueue(f), OpDone] + [Respawn(0), StartRead, OpFail]; var w := Run(Installed(true), evs);
      && AllHygienic(Installed(true), evs) && GateOpen(w) && w.arrived == w.settled
      && OutboxKey(f) in w.durable && OutboxKey(f) in w.disk && OutboxKey(f) !in w.released
  {
    OnePersists(f);
    ReadBackFails(f);
    RunAppend(Installed(true), [Enqueue(f), OpDone], [Respawn(0), StartRead, OpFail]);
    HygienicAppend(Installed(true), [Enqueue(f), OpDone], [Respawn(0), StartRead, OpFail]);
  }
}
