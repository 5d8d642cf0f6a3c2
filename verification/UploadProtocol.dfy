/** The durable upload protocol (modules/batch-uploader.js) as a state machine. One event is one
    synchronous stretch of the worker between two awaits, one completed store operation, one
    server reply, or the death and respawn of the worker; events interleave in any order. */
module UploadProtocol {
  import opened Basics

  const BATCH_SIZE: nat := 5

  /** `born` is a history label no branch reads: how many outbox clears had begun at capture. */
  datatype File = File(sessionId: string, contentHash: string, content: string, born: nat)

  function OutboxKey(f: File): string {
    f.sessionId + ":" + f.contentHash
  }

  function Keys(files: seq<File>): set<string> {
    set f | f in files :: OutboxKey(f)
  }

  /** `since` is a history label: the last outbox clear that had completed at installation. */
  datatype Token = Token(text: string, since: nat)

  // ---- the uploader --------------------------------------------------------

  datatype Stats = Stats(uploadedFiles: nat, failedBatches: nat, droppedFiles: nat)

  /** The suspended `processBatch` activation: waiting for the server, or deleting the batch
      from the store one file at a time. The uploader is uploading unless idle. */
  datatype Flight = Idle | Sent(batch: seq<File>, batchEpoch: nat) | Forgetting(rest: seq<File>, batchEpoch: nat)

  datatype Outcome = Acked | Rejected | AuthExpired | Transient

  /** What comes back: nothing (a network failure or a timeout), or a status and a body that can or
      cannot be read. */
  datatype Response = NoResponse | Response(status: int, readable: bool)

  /** What it means: 401 and 403 ask for a login, other 4xx but 429 are permanent. A body that cannot
      be read is a failure of its own, whatever the status. */
  function OutcomeOf(response: Response): Outcome {
    if response.NoResponse? || !response.readable then Transient
    else if 200 <= response.status < 300 then Acked
    else if response.status == 401 || response.status == 403 then AuthExpired
    else if 400 <= response.status < 500 && response.status != 429 then Rejected
    else Transient
  }

  datatype Uploader = Uploader(
    pending: seq<File>, epoch: nat, flight: Flight, authPaused: bool,
    token: Option<Token>, stats: Stats, hasStore: bool)

  predicate CanStart(u: Uploader) {
    u.flight.Idle? && u.pending != [] && !u.authPaused
  }

  function BatchLength(u: Uploader): nat {
    if |u.pending| < BATCH_SIZE then |u.pending| else BATCH_SIZE
  }

  function Started(u: Uploader): Uploader {
    if !CanStart(u) then u
    else u.(flight := Sent(u.pending[..BatchLength(u)], u.epoch), pending := u.pending[BatchLength(u)..])
  }

  function Replied(u: Uploader, outcome: Outcome): Uploader {
    if !u.flight.Sent? then u
    else
      var Sent(batch, batchEpoch) := u.flight;
      var failed := u.stats.(failedBatches := u.stats.failedBatches + 1);
      if outcome.Acked? then
        u.(flight := Forgetting(batch, batchEpoch),
           stats := u.stats.(uploadedFiles := u.stats.uploadedFiles + |batch|))
      else if outcome.Rejected? || batchEpoch != u.epoch then
        u.(flight := Forgetting(batch, batchEpoch),
           stats := failed.(droppedFiles := failed.droppedFiles + |batch|))
      else
        u.(flight := Idle, pending := batch + u.pending, stats := failed,
           authPaused := u.authPaused || outcome.AuthExpired?)
  }

  predicate StillForgetting(u: Uploader) {
    u.flight.Forgetting? && u.hasStore && u.flight.rest != []
  }

  function ForgotOne(u: Uploader): Uploader {
    if !u.flight.Forgetting? then u
    else if StillForgetting(u) then u.(flight := u.flight.(rest := u.flight.rest[1..]))
    else u.(flight := Idle)
  }

  function Cleared(u: Uploader): Uploader {
    u.(epoch := u.epoch + 1, pending := [], authPaused := false)
  }

  /** The read-back items whose key is neither queued nor already picked, in order. */
  function NewItems(items: seq<File>, known: set<string>): seq<File> {
    if items == [] then []
    else if items[0].contentHash != "" && OutboxKey(items[0]) !in known then
      [items[0]] + NewItems(items[1..], known + {OutboxKey(items[0])})
    else NewItems(items[1..], known)
  }

  function Merged(u: Uploader, items: seq<File>): Uploader {
    u.(pending := u.pending + NewItems(items, Keys(u.pending)))
  }

  // ---- the store and the world ---------------------------------------------

  datatype StoreOp = Put(f: File) | Delete(key: string) | Clear(number: nat) | Read

  type Disk = map<string, File>

  function Applied(disk: Disk, op: StoreOp): Disk {
    match op
    case Put(f) => disk[OutboxKey(f) := f]
    case Delete(key) => disk - {key}
    case Clear(_) => map[]
    case Read => disk
  }

  datatype Send = Send(batch: seq<File>, token: Option<Token>)

  /** The uploader, the store with its operations in issue order, and the token a respawn
      reloads. Below `clears` is history: clears begun and completed; files enqueued or reloaded
      and files settled in the current epoch of this worker; files acknowledged and dropped and
      replies received by this worker; every request ever sent; keys whose put completed and
      keys acknowledged or rejected since the last clear began. */
  datatype World = World(
    up: Uploader, disk: Disk, ops: seq<StoreOp>, persisted: Option<Token>,
    clears: nat, clearsDone: nat,
    arrived: seq<File>, settled: seq<File>, acked: seq<File>, dropped: seq<File>, failures: nat,
    replies: nat, sentHere: nat, sends: seq<Send>,
    durable: set<string>, released: set<string>)

  datatype Event =
    | Enqueue(f: File)
    | Start
    | Reply(response: Response)
    | ForgetNext
    | ClearOutbox
    | SetToken(token: Option<Token>)
    | Persist(token: Option<Token>)
    | Resume
    | Pause
    | StartRead
    | ReadDone(items: seq<File>)
    | OpDone
    | OpFail
    | Respawn(committed: nat)

  function Issued(w: World, op: StoreOp): World {
    if w.up.hasStore then w.(ops := w.ops + [op]) else w
  }

  /** A batch taken in the current epoch; a clear since then has made any other one stale. */
  predicate Current(u: Uploader) {
    !u.flight.Idle? && u.flight.batchEpoch == u.epoch
  }

  function AfterReply(w: World, outcome: Outcome): World {
    if !w.up.flight.Sent? then w
    else
      var batch := w.up.flight.batch;
      var final := outcome.Acked? || outcome.Rejected?;
      var next := w.(up := Replied(w.up, outcome), replies := w.replies + 1,
                     failures := w.failures + if outcome.Acked? then 0 else 1);
      var counted :=
        if outcome.Acked? then next.(acked := w.acked + batch)
        else if outcome.Rejected? || !Current(w.up) then next.(dropped := w.dropped + batch)
        else next;
      if final && Current(w.up)
      then counted.(settled := w.settled + batch, released := w.released + Keys(batch))
      else counted
  }

  predicate LabelOk(token: Option<Token>, w: World) {
    token.Some? ==> token.value.since == w.clearsDone
  }

  function Completed(w: World): World {
    if w.ops == [] then w
    else
      var op := w.ops[0];
      var next := w.(disk := Applied(w.disk, op), ops := w.ops[1..]);
      match op
      case Put(f) => if f.born == w.clears then next.(durable := w.durable + {OutboxKey(f)}) else next
      case Clear(number) => if number > w.clearsDone then next.(clearsDone := number) else next
      case _ => next
  }

  /** The first `k` outstanding operations take effect. */
  function CompletedMany(w: World, k: nat): World
    decreases k
  {
    if k == 0 then w else CompletedMany(Completed(w), k - 1)
  }

  function FreshUploader(token: Option<Token>, hasStore: bool): Uploader {
    Uploader([], 0, Idle, false, token, Stats(0, 0, 0), hasStore)
  }

  /** Operations already handed to the store may or may not have committed; memory is gone. */
  function Respawned(w: World, committed: nat): World {
    var c := CompletedMany(w, committed);
    c.(up := FreshUploader(w.persisted, w.up.hasStore), ops := [], arrived := [], settled := [],
       acked := [], dropped := [], failures := 0, replies := 0, sentHere := 0)
  }

  /** `items` is what reading the whole store returns: each stored file once, in any order. */
  predicate Lists(items: seq<File>, disk: Disk) {
    Elements(items) == disk.Values && NoDuplicates(items)
  }

  /** The effect of `clearOutbox`: without a store there is nothing left to wait for. */
  function ClearedNow(w: World): World {
    var next := Issued(w.(up := Cleared(w.up), clears := w.clears + 1, arrived := [], settled := [],
                          durable := {}, released := {}), Clear(w.clears + 1));
    if w.up.hasStore then next else next.(clearsDone := w.clears + 1)
  }

  /** One event. An event that is not enabled leaves the world as it is. A message that clears
      the outbox waits until start-up, and with it the read-back, is over. */
  function Step(w: World, ev: Event): World {
    match ev
    case Enqueue(f) =>
      if f.born != w.clears then w
      else Issued(w.(up := w.up.(pending := w.up.pending + [f]), arrived := w.arrived + [f]), Put(f))
    case Start =>
      if !CanStart(w.up) then w
      else w.(up := Started(w.up), sentHere := w.sentHere + 1,
              sends := w.sends + [Send(w.up.pending[..BatchLength(w.up)], w.up.token)])
    case Reply(response) => AfterReply(w, OutcomeOf(response))
    case ForgetNext =>
      if StillForgetting(w.up) then Issued(w.(up := ForgotOne(w.up)), Delete(OutboxKey(w.up.flight.rest[0])))
      else w.(up := ForgotOne(w.up))
    case ClearOutbox => if Read in w.ops then w else ClearedNow(w)
    case SetToken(token) => if LabelOk(token, w) then w.(up := w.up.(token := token)) else w
    case Persist(token) => if LabelOk(token, w) then w.(persisted := token) else w
    case Resume => w.(up := w.up.(authPaused := false))
    case Pause => w.(up := w.up.(authPaused := true))
    case StartRead => if Read in w.ops then w else Issued(w, Read)
    case ReadDone(items) =>
      if w.ops == [] || !w.ops[0].Read? || !Lists(items, w.disk) then w
      else w.(up := Merged(w.up, items), ops := w.ops[1..],
              arrived := w.arrived + NewItems(items, Keys(w.up.pending)))
    case OpDone => if w.ops == [] || w.ops[0].Read? then w else Completed(w)
    case OpFail => if w.ops == [] then w else w.(ops := w.ops[1..])
    case Respawn(committed) => if committed <= |w.ops| then Respawned(w, committed) else w
  }

  function Run(w: World, evs: seq<Event>): World
    decreases evs
  {
    if evs == [] then w else Run(Step(w, evs[0]), evs[1..])
  }

  function Installed(hasStore: bool): World {
    World(FreshUploader(None, hasStore), map[], [], None, 0, 0, [], [], [], [], 0, 0, 0, [], {}, {})
  }

  lemma RunOne(w: World, ev: Event)
    ensures Run(w, [ev]) == Step(w, ev)
  {
    assert [ev][1..] == [];
  }

  lemma {:induction false} RunAppend(w: World, a: seq<Event>, b: seq<Event>)
    ensures Run(w, a + b) == Run(Run(w, a), b)
    decreases a
  {
    if a == [] {
      assert a + b == b;
    } else {
      assert (a + b)[1..] == a[1..] + b;
      RunAppend(Step(w, a[0]), a[1..], b);
    }
  }
}
