/** Order, counting and the analysis gate of the upload protocol. */
module UploadOrder {
  import opened Basics
  import opened UploadProtocol

  /** The files of the current epoch that are on the wire. */
  function OnWire(u: Uploader): seq<File> {
    if u.flight.Sent? && Current(u) then u.flight.batch else []
  }

  ghost predicate InOrder(w: World) {
    && w.arrived == w.settled + OnWire(w.up) + w.up.pending
    && (w.up.flight.Sent? ==> 1 <= |w.up.flight.batch| <= BATCH_SIZE)
    && (!w.up.flight.Idle? ==> w.up.flight.batchEpoch <= w.up.epoch)
    && w.sentHere == w.replies + (if w.up.flight.Sent? then 1 else 0)
    && w.up.stats == Stats(|w.acked|, w.failures, |w.dropped|)
  }

  lemma {:induction false} CompletedManyFrame(w: World, k: nat)
    ensures var c := CompletedMany(w, k);
      c.sends == w.sends && c.persisted == w.persisted && c.up == w.up && c.clears == w.clears && c.released == w.released
    decreases k
  {
    if k > 0 {
      CompletedManyFrame(Completed(w), k - 1);
    }
  }

  lemma StartInOrder(w: World)
    requires InOrder(w)
    ensures InOrder(Step(w, Start))
  {
    if CanStart(w.up) {
      assert w.up.pending == w.up.pending[..BatchLength(w.up)] + w.up.pending[BatchLength(w.up)..];
    }
  }

  lemma ReplyKeepsQueue(w: World, outcome: Outcome)
    requires InOrder(w) && w.up.flight.Sent?
    ensures var v := AfterReply(w, outcome);
      v.arrived == v.settled + v.up.pending && !v.up.flight.Sent? && v.replies == w.replies + 1
  {
    var batch := w.up.flight.batch;
    assert w.settled + batch + w.up.pending == w.settled + (batch + w.up.pending);
    assert w.settled + [] + w.up.pending == w.settled + w.up.pending;
  }

  lemma ReplyKeepsCounts(w: World, outcome: Outcome)
    requires w.up.flight.Sent? && w.up.stats == Stats(|w.acked|, w.failures, |w.dropped|)
    ensures var v := AfterReply(w, outcome); v.up.stats == Stats(|v.acked|, v.failures, |v.dropped|)
  {
  }

  lemma ReplyInOrder(w: World, response: Response)
    requires InOrder(w)
    ensures InOrder(Step(w, Reply(response)))
  {
    if w.up.flight.Sent? {
      var outcome := OutcomeOf(response);
      var v := AfterReply(w, outcome);
      ReplyKeepsQueue(w, outcome);
      ReplyKeepsCounts(w, outcome);
      assert v.settled + OnWire(v.up) == v.settled;
    }
  }

  lemma EnqueueInOrder(w: World, f: File)
    requires InOrder(w)
    ensures InOrder(Step(w, Enqueue(f)))
  {
    assert (w.settled + OnWire(w.up) + w.up.pending) + [f] == w.settled + OnWire(w.up) + (w.up.pending + [f]);
  }

  lemma ReadInOrder(w: World, items: seq<File>)
    requires InOrder(w)
    ensures InOrder(Step(w, ReadDone(items)))
  {
    var more := NewItems(items, Keys(w.up.pending));
    assert (w.settled + OnWire(w.up) + w.up.pending) + more == w.settled + OnWire(w.up) + (w.up.pending + more);
  }

  lemma OrderKept(w: World, ev: Event)
    requires InOrder(w)
    ensures InOrder(Step(w, ev))
  {
    match ev
    case Enqueue(f) => EnqueueInOrder(w, f);
    case Start => StartInOrder(w);
    case Reply(response) => ReplyInOrder(w, response);
    case ReadDone(items) => ReadInOrder(w, items);
    case Respawn(committed) => CompletedManyFrame(w, committed);
    case _ =>
  }

  lemma {:induction false} OrderFrom(w: World, evs: seq<Event>)
    requires InOrder(w)
    ensures InOrder(Run(w, evs))
    decreases evs
  {
    if evs != [] {
      OrderKept(w, evs[0]);
      OrderFrom(Step(w, evs[0]), evs[1..]);
    }
  }

  /** In every reachable state the files that entered the queue in this epoch are, in the order
      they entered, those settled, then those on the wire, then those still queued; at most one
      request is unanswered, it carries one to five files, and the counters are the numbers of
      files acknowledged, of files dropped and of failed replies. */
  lemma FirstInFirstOut(hasStore: bool, evs: seq<Event>)
    ensures InOrder(Run(Installed(hasStore), evs))
    ensures var flight := Run(Installed(hasStore), evs).up.flight; flight.Sent? ==> 1 <= |flight.batch| <= 5
  {
    OrderFrom(Installed(hasStore), evs);
  }

  /** The analysis gate within one worker's life: while no upload runs, the queue is empty exactly when
      everything that entered it in this epoch has been acknowledged or permanently rejected. */
  lemma AnalyzeSeesEverything(hasStore: bool, evs: seq<Event>)
    ensures var w := Run(Installed(hasStore), evs);
      w.up.flight.Idle? ==> (w.up.pending == [] <==> w.arrived == w.settled)
  {
    FirstInFirstOut(hasStore, evs);
  }

  /** Nothing in the run lifts an auth pause: no login, no outbox clear, no respawn. */
  predicate StaysPaused(evs: seq<Event>) {
    forall e | e in evs :: !e.Resume? && !e.ClearOutbox? && !e.Respawn?
  }

  /** While uploads are paused for a login nothing is sent, whatever else happens, and what was
      queued stays queued in its order: no reply, timer or new file moves it. */
  lemma {:induction false} PausedSendsNothing(w: World, evs: seq<Event>)
    requires w.up.authPaused && StaysPaused(evs)
    ensures var r := Run(w, evs); r.up.authPaused && r.sends == w.sends
    ensures var r := Run(w, evs);
      w.up.flight.Idle? ==> r.up.flight.Idle? && w.up.pending <= r.up.pending && r.dropped == w.dropped
    decreases evs
  {
    if evs != [] {
      assert evs[0] in evs;
      PausedStep(w, evs[0]);
      PausedSendsNothing(Step(w, evs[0]), evs[1..]);
    }
  }

  lemma PausedStep(w: World, ev: Event)
    requires w.up.authPaused && !ev.Resume? && !ev.ClearOutbox? && !ev.Respawn?
    ensures var v := Step(w, ev); v.up.authPaused && v.sends == w.sends
    ensures var v := Step(w, ev);
      w.up.flight.Idle? ==> v.up.flight.Idle? && w.up.pending <= v.up.pending && v.dropped == w.dropped
  {
  }

  /** The first upload after the pause starts with the file that has waited longest, under the token
      held by then. */
  lemma ResumedSendsTheOldest(w: World, evs: seq<Event>)
    requires w.up.authPaused && w.up.flight.Idle? && w.up.pending != [] && StaysPaused(evs)
    ensures var r := Run(w, evs);
      var v := Step(Step(r, Resume), Start);
      exists batch :: v.sends == w.sends + [Send(batch, r.up.token)] && 1 <= |batch| <= BATCH_SIZE &&
        batch[0] == w.up.pending[0] && batch + v.up.pending == r.up.pending
  {
    PausedSendsNothing(w, evs);
    var r := Run(w, evs);
    var v := Step(Step(r, Resume), Start);
    var batch := r.up.pending[..BatchLength(r.up)];
    assert batch + v.up.pending == r.up.pending;
    assert v.sends == w.sends + [Send(batch, r.up.token)];
  }

  /** What is sent carries the token held at that moment. */
  lemma SendsUnderTheTokenHeld(w: World, token: Option<Token>)
    requires CanStart(w.up) && LabelOk(token, w)
    ensures var v := Step(Step(w, SetToken(token)), Start); exists batch :: v.sends == w.sends + [Send(batch, token)]
  {
    var batch := w.up.pending[..BatchLength(w.up)];
    assert Step(Step(w, SetToken(token)), Start).sends == w.sends + [Send(batch, token)];
  }

  /** An outbox clear leaves nothing queued and lifts a pause: the next file goes out by itself. */
  lemma ClearedStartsAfresh(w: World, f: File)
    requires w.up.flight.Idle? && Read !in w.ops && f.born == w.clears + 1
    ensures var cleared := Step(w, ClearOutbox);
      cleared.up.pending == [] && !cleared.up.authPaused && cleared.up.token == w.up.token &&
      Step(Step(cleared, Enqueue(f)), Start).sends == w.sends + [Send([f], w.up.token)]
  {
    var queued := Step(Step(w, ClearOutbox), Enqueue(f));
    assert queued.up.pending == [f] && queued.up.pending[..BatchLength(queued.up)] == [f];
  }

  /** A read-back adds each key once, and none that is queued already. */
  lemma {:induction false} NewItemsOnce(items: seq<File>, known: set<string>)
    ensures var added := NewItems(items, known);
      && (forall f | f in added :: f in items && OutboxKey(f) !in known && f.contentHash != "")
      && (forall i, j | 0 <= i < j < |added| :: OutboxKey(added[i]) != OutboxKey(added[j]))
  {
    if items != [] {
      var taken := items[0].contentHash != "" && OutboxKey(items[0]) !in known;
      NewItemsOnce(items[1..], if taken then known + {OutboxKey(items[0])} else known);
    }
  }

  /** And it adds them in their order. */
  lemma {:induction false} NewItemsInOrder(items: seq<File>, known: set<string>)
    ensures var added := NewItems(items, known);
      added != [] ==> exists k | 0 <= k < |items| ::
        items[k] == added[0] && added[1..] == NewItems(items[k + 1..], known + {OutboxKey(added[0])})
  {
    if items != [] {
      var added := NewItems(items, known);
      if items[0].contentHash != "" && OutboxKey(items[0]) !in known {
        assert items[0] == added[0] && added[1..] == NewItems(items[0 + 1..], known + {OutboxKey(added[0])});
      } else if added != [] {
        NewItemsInOrder(items[1..], known);
        var k :| 0 <= k < |items[1..]| && items[1..][k] == added[0] &&
          added[1..] == NewItems(items[1..][k + 1..], known + {OutboxKey(added[0])});
        assert items[1..][k + 1..] == items[k + 1 + 1..] && items[k + 1] == added[0];
      }
    }
  }

  predicate Delivers(response: Response) {
    response.Response? && response.readable && 200 <= response.status < 300
  }

  /** The server will never take the batch. */
  predicate Refuses(response: Response) {
    response.Response? && response.readable && 400 <= response.status < 500 && response.status !in {401, 403, 429}
  }

  /** A reply drops the batch exactly when the server refuses it for good, or when an outbox clear has
      made it stale and it was not taken; a batch neither taken nor dropped is back in front. */
  lemma DroppedIff(w: World, response: Response)
    requires InOrder(w) && w.up.flight.Sent?
    ensures var v := Step(w, Reply(response)); var batch := w.up.flight.batch;
      && (v.dropped != w.dropped <==> Refuses(response) || (!Current(w.up) && !Delivers(response)))
      && (v.acked != w.acked <==> Delivers(response))
      && (v.dropped == w.dropped && v.acked == w.acked ==> v.up.pending == batch + w.up.pending)
  {
  }

  /** A login that expires under a batch costs no file: in any run without a resume, an outbox clear or
      a respawn nothing is sent and nothing dropped, and the first upload once it is resumed begins with
      that batch's first file. */
  lemma LoginLapseLosesNothing(w: World, status: int, evs: seq<Event>)
    requires InOrder(w) && w.up.flight.Sent? && Current(w.up) && status in {401, 403} && StaysPaused(evs)
    ensures var r := Run(Step(w, Reply(Response(status, true))), evs);
      var v := Step(Step(r, Resume), Start);
      && r.sends == w.sends && r.dropped == w.dropped && w.up.flight.batch + w.up.pending <= r.up.pending
      && exists batch :: v.sends == w.sends + [Send(batch, r.up.token)] && batch != [] && batch[0] == w.up.flight.batch[0]
  {
    var lapsed := Step(w, Reply(Response(status, true)));
    assert lapsed.up.pending == w.up.flight.batch + w.up.pending && lapsed.up.authPaused && lapsed.up.flight.Idle?;
    PausedSendsNothing(lapsed, evs);
    ResumedSendsTheOldest(lapsed, evs);
  }

  /** One round of the flush: start an upload, and let everything else happen until none runs. */
  function Round(v: World, outside: World -> seq<Event>): World {
    Run(Step(v, Start), outside(Step(v, Start)))
  }

  /** The events of the first wait and of `n` rounds. */
  function FlushEvents(w: World, outside: World -> seq<Event>, n: nat): seq<Event> {
    if n == 0 then outside(w)
    else
      var before := FlushEvents(w, outside, n - 1);
      before + ([Start] + outside(Step(Run(w, before), Start)))
  }

  /** The world after them. */
  function AtTop(w: World, outside: World -> seq<Event>, n: nat): World {
    Run(w, FlushEvents(w, outside, n))
  }

  lemma NextTop(w: World, outside: World -> seq<Event>, n: nat)
    ensures AtTop(w, outside, n + 1) == Round(AtTop(w, outside, n), outside)
  {
    var before := FlushEvents(w, outside, n);
    var v := Run(w, before);
    var during := outside(Step(v, Start));
    RunAppend(w, before, [Start] + during);
    assert ([Start] + during)[1..] == during;
  }

  /** Round `n` leaves the queue shorter. */
  predicate Shrinks(w: World, outside: World -> seq<Event>, n: nat) {
    |AtTop(w, outside, n + 1).up.pending| < |AtTop(w, outside, n).up.pending|
  }

  /** Where the flush stands before another round: every round began with files and left fewer. */
  ghost predicate Flushing(w: World, outside: World -> seq<Event>, n: nat, r: World) {
    && r == AtTop(w, outside, n) && r.up.flight.Idle?
    && forall i | 0 <= i < n :: AtTop(w, outside, i).up.pending != [] && Shrinks(w, outside, i)
  }

  /** Where it ends: every round began with files, all but the last left fewer, and so did the last
      unless the queue is not empty. */
  ghost predicate Flushed(w: World, outside: World -> seq<Event>, n: nat, r: World) {
    && r == AtTop(w, outside, n) && r.up.flight.Idle?
    && (forall i | 0 <= i < n :: AtTop(w, outside, i).up.pending != [])
    && (forall i | 0 <= i < n - 1 :: Shrinks(w, outside, i))
    && (r.up.pending == [] || (n > 0 && !Shrinks(w, outside, n - 1)))
  }

  lemma RoundIdle(v: World, outside: World -> seq<Event>)
    requires forall u :: Run(u, outside(u)).up.flight.Idle?
    ensures Round(v, outside).up.flight.Idle?
  {
  }

  lemma FlushRound(w: World, outside: World -> seq<Event>, n: nat, r: World)
    requires Flushing(w, outside, n, r) && r.up.pending != []
    requires Round(r, outside).up.flight.Idle?
    ensures var next := Round(r, outside);
      if |next.up.pending| < |r.up.pending| then Flushing(w, outside, n + 1, next) else Flushed(w, outside, n + 1, next)
  {
    NextTop(w, outside, n);
  }

  /** `flushAll`: wait out a running upload, then upload batch after batch until the queue is
      empty or a round leaves it no shorter. `outside` is what else happens during an await; the
      loop only goes on once no upload is running. The queue length falls from round to round. */
  method FlushAll(w: World, outside: World -> seq<Event>) returns (r: World, rounds: nat)
    requires forall v :: Run(v, outside(v)).up.flight.Idle?
    ensures Flushed(w, outside, rounds, r)
  {
    r := Run(w, outside(w));
    rounds := 0;
    while r.up.pending != []
      invariant Flushing(w, outside, rounds, r)
      decreases |r.up.pending|
    {
      var before := |r.up.pending|;
      RoundIdle(r, outside);
      FlushRound(w, outside, rounds, r);
      r := Round(r, outside);
      rounds := rounds + 1;
      if |r.up.pending| >= before {
        return;
      }
    }
  }
}
