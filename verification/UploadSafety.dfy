/** What never leaves the outbox under a token installed later. */
module UploadSafety {
  import opened Basics
  import opened UploadProtocol
  import UploadOrder

  // ---- isolation across an outbox clear ------------------------------------

  ghost predicate BornSince(files: seq<File>, bound: nat) {
    forall f | f in files :: f.born >= bound
  }

  /** What a retry could still put back in the queue. */
  function Retriable(u: Uploader): seq<File> {
    UploadOrder.OnWire(u) + u.pending
  }

  /** No stored file, and no file on its way to the store, is older than the completed clears;
      a put behind a clear is younger than it; no clear is behind a read. */
  ghost predicate StoreBorn(disk: Disk, ops: seq<StoreOp>, clearsDone: nat, clears: nat) {
    && (forall k | k in disk :: disk[k].born >= clearsDone)
    && (forall i | 0 <= i < |ops| && ops[i].Put? :: ops[i].f.born >= clearsDone)
    && (forall i | 0 <= i < |ops| && ops[i].Clear? :: ops[i].number <= clears)
    && (forall i, j | 0 <= i < j < |ops| && ops[i].Clear? && ops[j].Put? :: ops[j].f.born >= ops[i].number)
    && (forall i, j | 0 <= i < j < |ops| && ops[i].Read? :: !ops[j].Clear?)
  }

  /** The files that can still be sent are as young as every clear, completed or outstanding. */
  ghost predicate FilesBorn(files: seq<File>, ops: seq<StoreOp>, clearsDone: nat) {
    && BornSince(files, clearsDone)
    && (forall i | 0 <= i < |ops| && ops[i].Clear? :: BornSince(files, ops[i].number))
  }

  ghost predicate TokenOk(token: Option<Token>, clearsDone: nat) {
    token.Some? ==> token.value.since <= clearsDone
  }

  ghost predicate SendsOk(sends: seq<Send>) {
    forall s | s in sends && s.token.Some? :: BornSince(s.batch, s.token.value.since)
  }

  ghost predicate Isolated(w: World) {
    && w.clearsDone <= w.clears
    && StoreBorn(w.disk, w.ops, w.clearsDone, w.clears)
    && FilesBorn(Retriable(w.up), w.ops, w.clearsDone)
    && TokenOk(w.up.token, w.clearsDone) && TokenOk(w.persisted, w.clearsDone)
    && SendsOk(w.sends)
    && (!w.up.flight.Idle? ==> w.up.flight.batchEpoch <= w.up.epoch)
    && (!w.up.hasStore ==> w.ops == [] && w.disk == map[])
  }

  lemma CompletedIsolated(w: World)
    requires Isolated(w)
    ensures Isolated(Completed(w))
  {
    if w.ops != [] {
      var v := Completed(w);
      assert forall i | 0 <= i < |v.ops| :: v.ops[i] == w.ops[i + 1];
      CompletedStore(w);
    }
  }

  lemma CompletedStore(w: World)
    requires Isolated(w) && w.ops != []
    ensures var v := Completed(w); StoreBorn(v.disk, v.ops, v.clearsDone, v.clears)
  {
    var v := Completed(w);
    assert forall i | 0 <= i < |v.ops| :: v.ops[i] == w.ops[i + 1];
  }

  lemma {:induction false} CompletedManyIsolated(w: World, k: nat)
    requires Isolated(w)
    ensures Isolated(CompletedMany(w, k))
    decreases k
  {
    if k > 0 {
      CompletedIsolated(w);
      CompletedManyIsolated(Completed(w), k - 1);
    }
  }

  lemma {:induction false} NewItemsAreItems(items: seq<File>, known: set<string>, f: File)
    requires f in NewItems(items, known)
    ensures f in items
  {
    if items != [] && f !in [items[0]] {
      NewItemsAreItems(items[1..], if items[0].contentHash != "" && OutboxKey(items[0]) !in known
                                   then known + {OutboxKey(items[0])} else known, f);
    }
  }

  lemma ReadBackIsolated(w: World, items: seq<File>)
    requires Isolated(w)
    ensures Isolated(Step(w, ReadDone(items)))
  {
    var v := Step(w, ReadDone(items));
    if v != w {
      assert forall i | 0 <= i < |v.ops| :: v.ops[i] == w.ops[i + 1];
      forall f | f in Retriable(v.up) ensures f.born >= w.clearsDone {
        if f !in Retriable(w.up) {
          assert f in NewItems(items, Keys(w.up.pending));
          NewItemsAreItems(items, Keys(w.up.pending), f);
          assert f in Elements(items);
        }
      }
    }
  }

  lemma SameFilesIsolated(w: World, v: World)
    requires Isolated(w)
    requires v.disk == w.disk && v.ops == w.ops && v.clears == w.clears && v.clearsDone == w.clearsDone
    requires v.up.hasStore == w.up.hasStore
    requires !v.up.flight.Idle? ==> v.up.flight.batchEpoch <= v.up.epoch
    requires forall f | f in Retriable(v.up) :: f in Retriable(w.up)
    requires TokenOk(v.up.token, v.clearsDone) && TokenOk(v.persisted, v.clearsDone) && SendsOk(v.sends)
    ensures Isolated(v)
  {
    assert FilesBorn(Retriable(v.up), v.ops, v.clearsDone);
  }

  lemma StartIsolated(w: World)
    requires Isolated(w)
    ensures Isolated(Step(w, Start))
  {
    var v := Step(w, Start);
    if CanStart(w.up) {
      assert w.up.pending == v.up.flight.batch + v.up.pending;
      SameFilesIsolated(w, v);
    }
  }

  lemma IssueIsolated(w: World, op: StoreOp)
    requires Isolated(w)
    requires !op.Clear? && (op.Put? ==> op.f.born == w.clears)
    ensures Isolated(Issued(w, op))
  {
    var v := Issued(w, op);
    if w.up.hasStore {
      assert forall i | 0 <= i < |w.ops| :: v.ops[i] == w.ops[i];
    }
  }

  lemma EnqueueIsolated(w: World, f: File)
    requires Isolated(w)
    ensures Isolated(Step(w, Enqueue(f)))
  {
    if f.born == w.clears {
      var queued := w.(up := w.up.(pending := w.up.pending + [f]), arrived := w.arrived + [f]);
      assert forall g | g in Retriable(queued.up) :: g in Retriable(w.up) || g == f;
      IssueIsolated(queued, Put(f));
    }
  }

  lemma ClearIsolated(w: World)
    requires Isolated(w)
    ensures Isolated(Step(w, ClearOutbox))
  {
    var v := Step(w, ClearOutbox);
    if Read !in w.ops {
      assert Retriable(v.up) == [];
      ClearStore(w.disk, w.ops, w.clearsDone, w.clears);
    }
  }

  /** A store without a read outstanding can take a clear younger than everything before it. */
  lemma ClearStore(disk: Disk, ops: seq<StoreOp>, clearsDone: nat, clears: nat)
    requires StoreBorn(disk, ops, clearsDone, clears) && Read !in ops
    ensures StoreBorn(disk, ops + [Clear(clears + 1)], clearsDone, clears + 1)
  {
    var more := ops + [Clear(clears + 1)];
    assert forall i | 0 <= i < |ops| :: more[i] == ops[i] && !ops[i].Read?;
  }

  /** What a reply leaves to retry could be retried before. */
  lemma ReplyRetries(w: World, outcome: Outcome)
    ensures forall f | f in Retriable(AfterReply(w, outcome).up) :: f in Retriable(w.up)
  {
    var v := AfterReply(w, outcome);
    if w.up.flight.Sent? {
      assert UploadOrder.OnWire(v.up) == [];
      assert v.up.pending == w.up.pending || (Current(w.up) && v.up.pending == w.up.flight.batch + w.up.pending);
    }
  }

  lemma ReplyIsolated(w: World, outcome: Outcome)
    requires Isolated(w)
    ensures Isolated(AfterReply(w, outcome))
  {
    ReplyRetries(w, outcome);
    SameFilesIsolated(w, AfterReply(w, outcome));
  }

  lemma ForgetIsolated(w: World)
    requires Isolated(w)
    ensures Isolated(Step(w, ForgetNext))
  {
    var moved := w.(up := ForgotOne(w.up));
    SameFilesIsolated(w, moved);
    if StillForgetting(w.up) {
      IssueIsolated(moved, Delete(OutboxKey(w.up.flight.rest[0])));
    }
  }

  lemma OpFailIsolated(w: World)
    requires Isolated(w)
    ensures Isolated(Step(w, OpFail))
  {
    var v := Step(w, OpFail);
    if w.ops != [] {
      assert forall i | 0 <= i < |v.ops| :: v.ops[i] == w.ops[i + 1];
      assert StoreBorn(v.disk, v.ops, v.clearsDone, v.clears);
    }
  }

  lemma RespawnIsolated(w: World, committed: nat)
    requires Isolated(w)
    ensures Isolated(Step(w, Respawn(committed)))
  {
    if committed <= |w.ops| {
      CompletedManyIsolated(w, committed);
      UploadOrder.CompletedManyFrame(w, committed);
      assert Retriable(Respawned(w, committed).up) == [];
    }
  }

  lemma SwitchIsolated(w: World, ev: Event)
    requires Isolated(w) && (ev.SetToken? || ev.Persist? || ev.Resume? || ev.Pause?)
    ensures Isolated(Step(w, ev))
  {
    SameFilesIsolated(w, Step(w, ev));
  }

  lemma {:induction false} IsolatedKept(w: World, ev: Event)
    requires Isolated(w)
    ensures Isolated(Step(w, ev))
  {
    match ev
    case Enqueue(f) => EnqueueIsolated(w, f);
    case Start => StartIsolated(w);
    case Reply(response) => ReplyIsolated(w, OutcomeOf(response));
    case ForgetNext => ForgetIsolated(w);
    case ClearOutbox => ClearIsolated(w);
    case StartRead => IssueIsolated(w, Read);
    case ReadDone(items) => ReadBackIsolated(w, items);
    case OpDone => CompletedIsolated(w);
    case OpFail => OpFailIsolated(w);
    case Respawn(committed) => RespawnIsolated(w, committed);
    case _ => SwitchIsolated(w, ev);
  }

  lemma {:induction false} IsolatedFrom(w: World, evs: seq<Event>)
    requires Isolated(w)
    ensures Isolated(Run(w, evs))
    decreases evs
  {
    if evs != [] {
      IsolatedKept(w, evs[0]);
      IsolatedFrom(Step(w, evs[0]), evs[1..]);
    }
  }

  /** Whatever the order of events, a file enqueued before a clear began is never sent with a
      token installed after that clear completed. A clear that fails never completes. */
  lemma NoSendAcrossClear(hasStore: bool, evs: seq<Event>, send: Send, f: File, clear: nat)
    requires send in Run(Installed(hasStore), evs).sends && f in send.batch
    requires f.born < clear
    ensures send.token.Some? ==> send.token.value.since < clear
  {
    IsolatedFrom(Installed(hasStore), evs);
  }

  lemma ReadBackAfterClear(w: World, f: File)
    requires w == Installed(true).(ops := [Read], disk := map[OutboxKey(f) := f]) && f.contentHash != ""
    ensures Step(ClearedNow(w), ReadDone([f])) ==
      ClearedNow(w).(up := ClearedNow(w).up.(pending := [f]), ops := [Clear(1)], arrived := [f])
  {
    var a := ClearedNow(w);
    assert w.disk[OutboxKey(f)] == f;
    assert w.disk.Values == {f} == Elements([f]);
    assert a.ops == [Read, Clear(1)] && a.ops[1..] == [Clear(1)];
    assert NewItems([f], Keys([])) == [f];
  }

  /** A read-back merges what it read without looking at the epoch. Were a clear let in while one
      is outstanding, the file it resurrects would go out under the token installed afterwards. */
  lemma ClearDuringReadBackWouldLeak(w: World, f: File, next: Token)
    requires w == Installed(true).(ops := [Read], disk := map[OutboxKey(f) := f])
    requires f.born == 0 && f.contentHash != "" && next.since == 1
    ensures Isolated(w)
    ensures var merged := Step(ClearedNow(w), ReadDone([f]));
      var installed := Step(Step(merged, OpDone), SetToken(Some(next)));
      installed.clearsDone == 1 && Step(installed, Start).sends == [Send([f], Some(next))]
  {
    ReadBackAfterClear(w, f);
    var merged := Step(ClearedNow(w), ReadDone([f]));
    var installed := Step(Step(merged, OpDone), SetToken(Some(next)));
    assert installed.clearsDone == 1 && installed.up == merged.up.(token := Some(next));
    assert installed.up.pending[..BatchLength(installed.up)] == [f];
  }

  /** The clear has to complete: when the store fails it, which the uploader swallows, a file from
      before goes out under a token installed afterwards. */
  lemma FailedClearLeaks(f: File, next: Token)
    requires f.born == 0 && f.contentHash != "" && next.since == 0
    ensures var evs := [Enqueue(f), OpDone, ClearOutbox, OpFail]
                       + [SetToken(Some(next)), Persist(Some(next)), Respawn(0)] + [StartRead, ReadDone([f]), Start];
      Run(Installed(true), evs).sends == [Send([f], Some(next))]
  {
    var kept := Run(Installed(true), [Enqueue(f), OpDone, ClearOutbox, OpFail]);
    var back := Run(kept, [SetToken(Some(next)), Persist(Some(next)), Respawn(0)]);
    ClearFails(f);
    ComesBackWith(kept, next);
    ReadsAndSends(back, f);
    RunAppend(Installed(true), [Enqueue(f), OpDone, ClearOutbox, OpFail], [SetToken(Some(next)), Persist(Some(next)), Respawn(0)]);
    RunAppend(Installed(true), [Enqueue(f), OpDone, ClearOutbox, OpFail] + [SetToken(Some(next)), Persist(Some(next)), Respawn(0)],
              [StartRead, ReadDone([f]), Start]);
  }

  lemma ClearFails(f: File)
    requires f.born == 0
    ensures var w := Run(Installed(true), [Enqueue(f), OpDone, ClearOutbox, OpFail]);
      w.disk == map[OutboxKey(f) := f] && w.ops == [] && w.clearsDone == 0 && w.sends == [] && w.up.hasStore
  {
    var w := Step(Step(Installed(true), Enqueue(f)), OpDone);
    assert w.disk == map[OutboxKey(f) := f] && w.ops == [];
    var evs := [Enqueue(f), OpDone, ClearOutbox, OpFail];
    assert evs[1..][1..][1..] == [OpFail];
    RunOne(Step(w, ClearOutbox), OpFail);
    assert Run(w, evs[1..][1..]) == Step(Step(w, ClearOutbox), OpFail);
  }

  lemma ComesBackWith(w: World, next: Token)
    requires w.ops == [] && next.since == w.clearsDone
    ensures var r := Run(w, [SetToken(Some(next)), Persist(Some(next)), Respawn(0)]);
      r.up == FreshUploader(Some(next), w.up.hasStore) && r.disk == w.disk && r.ops == [] && r.sends == w.sends
  {
    var evs := [SetToken(Some(next)), Persist(Some(next)), Respawn(0)];
    var v := Step(Step(w, SetToken(Some(next))), Persist(Some(next)));
    assert evs[1..][1..] == [Respawn(0)];
    RunOne(v, Respawn(0));
  }

  lemma ReadsAndSends(w: World, f: File)
    requires w.up == FreshUploader(w.up.token, true) && w.ops == [] && w.disk == map[OutboxKey(f) := f] && f.contentHash != ""
    ensures Run(w, [StartRead, ReadDone([f]), Start]).sends == w.sends + [Send([f], w.up.token)]
  {
    var evs := [StartRead, ReadDone([f]), Start];
    var reading := Step(w, StartRead);
    var read := Step(reading, ReadDone([f]));
    assert w.disk[OutboxKey(f)] == f && Elements([f]) == w.disk.Values && Lists([f], w.disk);
    assert [f][1..] == [] && NewItems([f], {}) == [f] + NewItems([], {OutboxKey(f)});
    assert Keys([]) == {} && NewItems([f], Keys([])) == [f];
    assert read.up.pending == [f] && BatchLength(read.up) == 1;
    assert evs[1..][1..] == [Start];
    RunOne(read, Start);
  }
}
