/** Nothing the outbox has on disk is lost before the server has taken or refused it. */
module UploadDurability {
  import opened Basics
  import opened UploadProtocol

  /** The files a settled batch still has to be forgotten for. */
  function Remaining(u: Uploader): seq<File> {
    match u.flight
    case Idle => []
    case Sent(batch, _) => batch
    case Forgetting(rest, _) => rest
  }

  predicate Stale(u: Uploader) {
    !u.flight.Idle? && !Current(u)
  }

  /** Every key whose put completed since the last clear began is on disk, or the server has
      acknowledged or permanently rejected it. */
  ghost predicate Durable(w: World) {
    w.durable <= w.disk.Keys + w.released
  }

  /** The first `n` operations put `key` for the current generation. */
  ghost predicate PutAmong(ops: seq<StoreOp>, n: int, key: string, clears: nat) {
    exists j | 0 <= j < n && j < |ops| :: ops[j].Put? && ops[j].f.born == clears && OutboxKey(ops[j].f) == key
  }

  /** `key` may be deleted after the first `n` operations. */
  ghost predicate Deletable(w: World, n: int, key: string) {
    key in w.released || (key !in w.durable && !PutAmong(w.ops, n, key, w.clears))
  }

  ghost predicate Safe(w: World) {
    && Durable(w)
    && (forall i | 0 <= i < |w.ops| && w.ops[i].Delete? :: Deletable(w, i, w.ops[i].key))
    && (forall i | 0 <= i < |w.ops| && w.ops[i].Clear? ::
         w.durable == {} && forall j | 0 <= j < i && w.ops[j].Put? :: w.ops[j].f.born < w.clears)
    && (forall i | 0 <= i < |w.ops| && w.ops[i].Put? :: w.ops[i].f.born <= w.clears)
    && (!w.up.flight.Idle? ==> w.up.flight.batchEpoch <= w.up.epoch)
    && (Stale(w.up) ==> forall key | key in Keys(Remaining(w.up)) :: Deletable(w, |w.ops|, key))
    && (w.up.flight.Forgetting? && Current(w.up) ==> Keys(w.up.flight.rest) <= w.released)
  }

  /** A file is not enqueued under a key that a stale batch is still going to delete. */
  predicate Hygienic(w: World, ev: Event) {
    ev.Enqueue? && Stale(w.up) ==> OutboxKey(ev.f) !in Keys(Remaining(w.up)) || OutboxKey(ev.f) in w.released
  }

  predicate AllHygienic(w: World, evs: seq<Event>)
    decreases evs
  {
    evs == [] || (Hygienic(w, evs[0]) && AllHygienic(Step(w, evs[0]), evs[1..]))
  }

  // ---- one lemma per kind of event -----------------------------------------

  lemma HeadGoneSafe(w: World, v: World)
    requires Safe(w) && w.ops != []
    requires v == w.(ops := w.ops[1..])
    ensures Safe(v)
  {
    assert forall i | 0 <= i < |v.ops| :: v.ops[i] == w.ops[i + 1];
    forall n, key | 0 <= n <= |v.ops| && Deletable(w, n + 1, key) ensures Deletable(v, n, key) {
    }
    forall i | 0 <= i < |v.ops| && v.ops[i].Delete? ensures Deletable(v, i, v.ops[i].key) {
      assert Deletable(w, i + 1, w.ops[i + 1].key);
    }
  }

  lemma CompletedSafe(w: World)
    requires Safe(w)
    ensures Safe(Completed(w))
  {
    if w.ops != [] {
      var v := Completed(w);
      var op := w.ops[0];
      assert forall i | 0 <= i < |v.ops| :: v.ops[i] == w.ops[i + 1];
      assert Durable(v) by {
        if op.Delete? {
          assert Deletable(w, 0, op.key);
        }
      }
      forall n, key | 0 <= n <= |v.ops| && Deletable(w, n + 1, key) ensures Deletable(v, n, key) {
        if key in v.durable && key !in w.durable {
          assert PutAmong(w.ops, n + 1, key, w.clears);
        }
      }
      forall i | 0 <= i < |v.ops| && v.ops[i].Delete? ensures Deletable(v, i, v.ops[i].key) {
        assert Deletable(w, i + 1, w.ops[i + 1].key);
      }
      forall i | 0 <= i < |v.ops| && v.ops[i].Clear? ensures v.durable == {} {
        assert w.ops[i + 1].Clear?;
      }
    }
  }

  lemma {:induction false} CompletedManySafe(w: World, k: nat)
    requires Safe(w)
    ensures Safe(CompletedMany(w, k))
    decreases k
  {
    if k > 0 {
      CompletedSafe(w);
      CompletedManySafe(Completed(w), k - 1);
    }
  }

  /** Issuing an operation: a put of a key nobody is about to delete, or a permitted delete. */
  lemma IssuedSafe(w: World, op: StoreOp)
    requires Safe(w) && !op.Clear?
    requires op.Put? ==> op.f.born == w.clears
    requires op.Put? && Stale(w.up) ==> OutboxKey(op.f) !in Keys(Remaining(w.up)) || OutboxKey(op.f) in w.released
    requires op.Delete? ==> Deletable(w, |w.ops|, op.key)
    ensures Safe(Issued(w, op))
  {
    var v := Issued(w, op);
    if w.up.hasStore {
      assert forall i | 0 <= i < |w.ops| :: v.ops[i] == w.ops[i];
      forall n, key | 0 <= n <= |w.ops| && Deletable(w, n, key) ensures Deletable(v, n, key) {
      }
      forall i | 0 <= i < |v.ops| && v.ops[i].Delete? ensures Deletable(v, i, v.ops[i].key) {
        if i < |w.ops| {
          assert Deletable(w, i, w.ops[i].key);
        }
      }
      if Stale(w.up) {
        forall key | key in Keys(Remaining(w.up)) ensures Deletable(v, |v.ops|, key) {
          assert Deletable(w, |w.ops|, key);
        }
      }
    }
  }

  /** Changes that leave the store side alone. */
  lemma SameStoreSafe(w: World, v: World)
    requires Safe(w)
    requires v.disk == w.disk && v.ops == w.ops && v.clears == w.clears && v.durable == w.durable
    requires w.released <= v.released
    requires !v.up.flight.Idle? ==> v.up.flight.batchEpoch <= v.up.epoch
    requires Stale(v.up) ==> forall key | key in Keys(Remaining(v.up)) :: Deletable(w, |w.ops|, key)
    requires v.up.flight.Forgetting? && Current(v.up) ==> Keys(v.up.flight.rest) <= v.released
    ensures Safe(v)
  {
    forall n, key | Deletable(w, n, key) ensures Deletable(v, n, key) {
    }
  }

  lemma ReplySafe(w: World, outcome: Outcome)
    requires Safe(w)
    ensures Safe(AfterReply(w, outcome))
  {
    SameStoreSafe(w, AfterReply(w, outcome));
  }

  lemma ForgetSafe(w: World)
    requires Safe(w)
    ensures Safe(Step(w, ForgetNext))
  {
    var moved := w.(up := ForgotOne(w.up));
    if StillForgetting(w.up) {
      var rest := w.up.flight.rest;
      assert OutboxKey(rest[0]) in Keys(rest);
      assert Keys(rest[1..]) <= Keys(rest);
      assert Deletable(w, |w.ops|, OutboxKey(rest[0]));
      SameStoreSafe(w, moved);
      assert Deletable(moved, |moved.ops|, OutboxKey(rest[0]));
      IssuedSafe(moved, Delete(OutboxKey(rest[0])));
    } else {
      SameStoreSafe(w, moved);
    }
  }

  lemma EnqueueSafe(w: World, f: File)
    requires Safe(w) && Hygienic(w, Enqueue(f))
    ensures Safe(Step(w, Enqueue(f)))
  {
    if f.born == w.clears {
      var queued := w.(up := w.up.(pending := w.up.pending + [f]), arrived := w.arrived + [f]);
      SameStoreSafe(w, queued);
      IssuedSafe(queued, Put(f));
    }
  }

  lemma ClearSafe(w: World)
    requires Safe(w)
    ensures Safe(Step(w, ClearOutbox))
  {
    var v := Step(w, ClearOutbox);
    if v != w {
      assert forall i | 0 <= i < |w.ops| :: v.ops[i] == w.ops[i];
      forall n, key ensures Deletable(v, n, key) {
      }
    }
  }

  lemma StartSafe(w: World)
    requires Safe(w)
    ensures Safe(Step(w, Start))
  {
    SameStoreSafe(w, Step(w, Start));
  }

  lemma RespawnSafe(w: World, committed: nat)
    requires Safe(w)
    ensures Safe(Step(w, Respawn(committed)))
  {
    if committed <= |w.ops| {
      CompletedManySafe(w, committed);
    }
  }

  lemma SwitchSafe(w: World, ev: Event)
    requires Safe(w) && (ev.SetToken? || ev.Persist? || ev.Resume? || ev.Pause?)
    ensures Safe(Step(w, ev))
  {
    SameStoreSafe(w, Step(w, ev));
  }

  lemma ReadSafe(w: World, items: seq<File>)
    requires Safe(w)
    ensures Safe(Step(w, ReadDone(items)))
  {
    var v := Step(w, ReadDone(items));
    if v != w {
      HeadGoneSafe(w, w.(ops := w.ops[1..]));
      SameStoreSafe(w.(ops := w.ops[1..]), v);
    }
  }

  lemma SafeKept(w: World, ev: Event)
    requires Safe(w) && Hygienic(w, ev)
    ensures Safe(Step(w, ev))
  {
    match ev
    case Enqueue(f) => EnqueueSafe(w, f);
    case Start => StartSafe(w);
    case Reply(response) => ReplySafe(w, OutcomeOf(response));
    case ForgetNext => ForgetSafe(w);
    case ClearOutbox => ClearSafe(w);
    case StartRead => IssuedSafe(w, Read);
    case ReadDone(items) => ReadSafe(w, items);
    case OpDone => CompletedSafe(w);
    case OpFail =>
      if w.ops != [] {
        HeadGoneSafe(w, Step(w, OpFail));
      }
    case Respawn(committed) => RespawnSafe(w, committed);
    case _ => SwitchSafe(w, ev);
  }

  lemma {:induction false} SafeFrom(w: World, evs: seq<Event>)
    requires Safe(w) && AllHygienic(w, evs)
    ensures Safe(Run(w, evs))
    decreases evs
  {
    if evs != [] {
      SafeKept(w, evs[0]);
      SafeFrom(Step(w, evs[0]), evs[1..]);
    }
  }

  /** In every state reachable without reusing a doomed key, across any number of respawns, no
      persisted key is lost. */
  lemma NothingPersistedIsLost(hasStore: bool, evs: seq<Event>)
    requires AllHygienic(Installed(hasStore), evs)
    ensures Durable(Run(Installed(hasStore), evs))
  {
    SafeFrom(Installed(hasStore), evs);
  }

  // ---- why the condition is needed, and that it is exact -------------------

  /** Every operation still in the store's queue takes effect; a read just ends. */
  function Drain(ops: seq<StoreOp>): seq<Event> {
    if ops == [] then [] else [if ops[0].Read? then OpFail else OpDone] + Drain(ops[1..])
  }

  /** Neither a capture nor a clear nor a respawn. */
  predicate Plain(evs: seq<Event>) {
    forall ev | ev in evs :: !ev.Enqueue? && !ev.ClearOutbox? && !ev.Respawn?
  }

  lemma {:induction false} PlainIsHygienic(w: World, evs: seq<Event>)
    requires Plain(evs)
    ensures AllHygienic(w, evs)
    decreases evs
  {
    if evs != [] {
      PlainIsHygienic(Step(w, evs[0]), evs[1..]);
    }
  }

  /** What draining leaves behind, for one key: it is durable if it was or if a put of this
      generation was queued. */
  lemma {:induction false} DrainEffect(w: World, key: string)
    ensures var r := Run(w, Drain(w.ops));
      && r.up == w.up && r.ops == [] && r.released == w.released && r.clears == w.clears && w.durable <= r.durable
      && (PutAmong(w.ops, |w.ops|, key, w.clears) ==> key in r.durable)
    ensures Plain(Drain(w.ops))
    decreases |w.ops|
  {
    if w.ops != [] {
      var ev := if w.ops[0].Read? then OpFail else OpDone;
      var v := Step(w, ev);
      assert v.ops == w.ops[1..];
      assert w.ops == [w.ops[0]] + v.ops;
      assert Drain(w.ops)[0] == ev && Drain(w.ops)[1..] == Drain(v.ops);
      DrainEffect(v, key);
      PutBehind(w.ops, key, w.clears);
    }
  }

  /** A put among the operations is the first or among the others. */
  lemma PutBehind(ops: seq<StoreOp>, key: string, clears: nat)
    requires ops != []
    ensures PutAmong(ops, |ops|, key, clears) ==>
      PutAmong(ops, 1, key, clears) || PutAmong(ops[1..], |ops| - 1, key, clears)
  {
    if PutAmong(ops, |ops|, key, clears) {
      var j :| 0 <= j < |ops| && ops[j].Put? && ops[j].f.born == clears && OutboxKey(ops[j].f) == key;
      if j > 0 {
        assert ops[1..][j - 1] == ops[j];
      }
    }
  }

  /** Each delete is awaited before the next is issued. */
  function ForgetAll(n: nat): seq<Event> {
    if n == 0 then [] else [ForgetNext, OpDone] + ForgetAll(n - 1)
  }

  /** Forgetting a batch deletes each of its keys and changes nothing else. */
  lemma {:induction false} ForgetAllEffect(w: World)
    requires w.up.flight.Forgetting? && w.up.hasStore && w.ops == []
    ensures var r := Run(w, ForgetAll(|w.up.flight.rest|));
      && r.disk.Keys == w.disk.Keys - Keys(w.up.flight.rest) && r.ops == []
      && r.released == w.released && r.durable == w.durable
    ensures Plain(ForgetAll(|w.up.flight.rest|))
    decreases |w.up.flight.rest|
  {
    var rest := w.up.flight.rest;
    if rest != [] {
      var u := Step(w, ForgetNext);
      var v := Step(u, OpDone);
      assert rest == [rest[0]] + rest[1..];
      assert Keys(rest) == {OutboxKey(rest[0])} + Keys(rest[1..]);
      assert u.ops == [Delete(OutboxKey(rest[0]))] && v.ops == [] && v.disk == w.disk - {OutboxKey(rest[0])};
      var evs := ForgetAll(|rest|);
      assert evs[0] == ForgetNext && evs[1..][0] == OpDone && evs[1..][1..] == ForgetAll(|rest| - 1);
      assert Run(w, evs) == Run(v, evs[1..][1..]);
      ForgetAllEffect(v);
    }
  }

  /** From a stale batch that has been answered, with the store idle, `key` can be lost. */
  lemma StaleForgetLoses(w: World, key: string) returns (evs: seq<Event>)
    requires w.up.flight.Forgetting? && w.up.hasStore && w.ops == []
    requires key in Keys(w.up.flight.rest) && key in w.durable && key !in w.released
    ensures Plain(evs) && !Durable(Run(w, evs))
  {
    evs := ForgetAll(|w.up.flight.rest|);
    ForgetAllEffect(w);
    assert key in Run(w, evs).durable && key !in Run(w, evs).disk.Keys;
  }

  /** Enqueueing under a key that a stale batch will still delete: the put can complete, the batch
      can then fail and be forgotten, and a persisted file is gone without ever being accepted. */
  lemma DoomedKeyLoses(w: World, f: File) returns (evs: seq<Event>)
    requires w.up.hasStore && f.born == w.clears && Stale(w.up)
    requires OutboxKey(f) in Keys(Remaining(w.up)) && OutboxKey(f) !in w.released
    ensures Plain(evs) && !Durable(Run(Step(w, Enqueue(f)), evs))
  {
    var key := OutboxKey(f);
    var a := Step(w, Enqueue(f));
    assert a.ops[|w.ops|] == Put(f) && a.ops[|w.ops|].f == f;
    assert PutAmong(a.ops, |a.ops|, key, a.clears);
    DrainEffect(a, key);
    var b := Run(a, Drain(a.ops));
    var answered := if b.up.flight.Sent? then [Reply(NoResponse)] else [];
    var c := Run(b, answered);
    assert c.up.flight.Forgetting? && Remaining(c.up) == Remaining(w.up) by {
      RunOne(b, Reply(NoResponse));
    }
    RunOne(b, Reply(NoResponse));
    var later := StaleForgetLoses(c, key);
    RunAppend(b, answered, later);
    RunAppend(a, Drain(a.ops), answered + later);
    evs := Drain(a.ops) + (answered + later);
  }

  /** In a safe state, enqueueing a file nobody has settled keeps every persisted key for good
      exactly when its key is not one a stale batch is still going to delete. */
  lemma EnqueueDurableIff(w: World, f: File)
    requires Safe(w) && w.up.hasStore && f.born == w.clears && OutboxKey(f) !in w.released
    ensures var v := Step(w, Enqueue(f));
      (forall evs | AllHygienic(v, evs) :: Durable(Run(v, evs))) <==>
      !(Stale(w.up) && OutboxKey(f) in Keys(Remaining(w.up)))
  {
    var v := Step(w, Enqueue(f));
    if Stale(w.up) && OutboxKey(f) in Keys(Remaining(w.up)) {
      var evs := DoomedKeyLoses(w, f);
      PlainIsHygienic(v, evs);
    } else {
      EnqueueSafe(w, f);
      forall evs | AllHygienic(v, evs) ensures Durable(Run(v, evs)) {
        SafeFrom(v, evs);
      }
    }
  }

  // ---- coming back ---------------------------------------------------------

  lemma {:induction false} NewItemsCover(items: seq<File>, known: set<string>, f: File)
    requires f in items && f.contentHash != ""
    ensures OutboxKey(f) in known || OutboxKey(f) in Keys(NewItems(items, known))
  {
    var head := items[0];
    var isNew := head.contentHash != "" && OutboxKey(head) !in known;
    var next := if isNew then known + {OutboxKey(head)} else known;
    if f in items[1..] {
      NewItemsCover(items[1..], next, f);
      assert NewItems(items, known) == (if isNew then [head] else []) + NewItems(items[1..], next);
    }
    if isNew {
      assert NewItems(items, known)[0] == head;
    }
  }

  ghost predicate KeyedByContent(w: World) {
    forall key | key in w.disk :: OutboxKey(w.disk[key]) == key
  }

  lemma {:induction false} CompletedManyKeyed(w: World, k: nat)
    requires KeyedByContent(w)
    ensures KeyedByContent(CompletedMany(w, k))
    decreases k
  {
    if k > 0 {
      CompletedManyKeyed(Completed(w), k - 1);
    }
  }

  lemma {:induction false} KeyedFrom(w: World, evs: seq<Event>)
    requires KeyedByContent(w)
    ensures KeyedByContent(Run(w, evs))
    decreases evs
  {
    if evs != [] {
      if evs[0].Respawn? {
        CompletedManyKeyed(w, evs[0].committed);
      }
      KeyedFrom(Step(w, evs[0]), evs[1..]);
    }
  }

  /** A worker that dies in any state and comes back queues, in one read-back, every key that was
      persisted and neither acknowledged nor rejected: uploads are delivered at least once. */
  lemma RespawnRequeuesEverything(evs: seq<Event>, committed: nat, items: seq<File>, key: string)
    requires AllHygienic(Installed(true), evs + [Respawn(committed), StartRead])
    requires var w := Run(Installed(true), evs + [Respawn(committed), StartRead]);
      w.up.hasStore && w.ops == [Read] && Lists(items, w.disk) &&
      key in w.durable && key !in w.released && (key in w.disk ==> w.disk[key].contentHash != "")
    ensures key in Keys(Run(Installed(true), evs + [Respawn(committed), StartRead] + [ReadDone(items)]).up.pending)
  {
    var all := evs + [Respawn(committed), StartRead];
    var w := Run(Installed(true), all);
    SafeFrom(Installed(true), all);
    KeyedFrom(Installed(true), all);
    RunAppend(Installed(true), all, [ReadDone(items)]);
    RunOne(w, ReadDone(items));
    ReadBackRequeues(w, items, key);
  }

  lemma ReadBackRequeues(w: World, items: seq<File>, key: string)
    requires Durable(w) && KeyedByContent(w) && w.ops == [Read] && Lists(items, w.disk)
    requires key in w.durable && key !in w.released && (key in w.disk ==> w.disk[key].contentHash != "")
    ensures key in Keys(Step(w, ReadDone(items)).up.pending)
  {
    var f := w.disk[key];
    assert f in w.disk.Values && f in Elements(items);
    NewItemsCover(items, Keys(w.up.pending), f);
    assert Keys(w.up.pending + NewItems(items, Keys(w.up.pending))) ==
           Keys(w.up.pending) + Keys(NewItems(items, Keys(w.up.pending)));
  }

  // ---- keys of different sessions ------------------------------------------

  predicate NoColon(s: string) {
    ':' !in s
  }

  lemma KeysOfDifferentSessions(f: File, g: File)
    requires NoColon(f.sessionId) && NoColon(g.sessionId) && f.sessionId != g.sessionId
    ensures OutboxKey(f) != OutboxKey(g)
  {
    if |f.sessionId| <= |g.sessionId| {
      ShorterSession(f, g);
    } else {
      ShorterSession(g, f);
    }
  }

  lemma ShorterSession(f: File, g: File)
    requires NoColon(g.sessionId) && f.sessionId != g.sessionId && |f.sessionId| <= |g.sessionId|
    ensures OutboxKey(f) != OutboxKey(g)
  {
    var n := |f.sessionId|;
    assert OutboxKey(f)[n] == ':' && OutboxKey(f)[..n] == f.sessionId;
    if n == |g.sessionId| {
      assert OutboxKey(g)[..n] == g.sessionId;
    } else {
      assert OutboxKey(g)[n] == g.sessionId[n];
    }
  }
}
