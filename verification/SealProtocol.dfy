/** Sealing a capture round (api/capture_router.py): any number of save-files, analyze/start and
    crawl clients against one database, one committed transaction at a time. */
module SealProtocol {
  import opened Basics

  /** A tenant and the extension's session id. */
  type Key = (string, string)

  /** `marker` is the open-accumulator column, `files` the number of asset rows, `discoverJobs`
      the number of DISCOVERING jobs inserted. A run made by another route has no marker. */
  datatype Run = Run(session: Key, capture: bool, marker: Option<Key>, files: nat, discoverJobs: nat)

  /** The runs in creation order; a run's id is its position. */
  type Db = seq<Run>

  // ---- transactions --------------------------------------------------------

  function FindOpenFrom(db: Db, key: Key, i: nat): (r: Option<nat>)
    requires i <= |db|
    ensures r.Some? ==> i <= r.value < |db| && db[r.value].marker == Some(key)
    ensures r.None? ==> forall j | i <= j < |db| :: db[j].marker != Some(key)
    decreases |db| - i
  {
    if i == |db| then None
    else if db[i].marker == Some(key) then Some(i)
    else FindOpenFrom(db, key, i + 1)
  }

  /** Select the open run by its marker. */
  function FindOpen(db: Db, key: Key): Option<nat> {
    FindOpenFrom(db, key, 0)
  }

  /** Insert an open run; `None` when the unique index already holds the marker. */
  function InsertOpen(db: Db, key: Key): Option<Db> {
    if FindOpen(db, key).Some? then None else Some(db + [Run(key, true, Some(key), 0, 0)])
  }

  /** The session's newest run, however it was made. */
  function LatestBefore(db: Db, key: Key, n: nat): (r: Option<nat>)
    requires n <= |db|
    ensures r.Some? ==> r.value < n && db[r.value].session == key &&
                        forall j | r.value < j < n :: db[j].session != key
    ensures r.None? ==> forall j | 0 <= j < n :: db[j].session != key
  {
    if n == 0 then None
    else if db[n - 1].session == key then Some(n - 1)
    else LatestBefore(db, key, n - 1)
  }

  function Append(db: Db, id: nat, n: nat): Db
    requires id < |db|
  {
    db[id := db[id].(files := db[id].files + n)]
  }

  /** Null the marker if it is still set and insert the job in the same transaction; the row
      count elects the winner. */
  function Seal(db: Db, id: nat): (r: (Db, bool))
    requires id < |db|
  {
    if db[id].marker.None? then (db, false)
    else (db[id := db[id].(marker := None, discoverJobs := db[id].discoverJobs + 1)], true)
  }

  // ---- clients -------------------------------------------------------------

  /** Where a request handler stands between two transactions. */
  datatype Client =
    | SaveFind(key: Key, n: nat)
    | SaveCreate(key: Key, n: nat)
    | SaveRefind(key: Key, n: nat)
    | SaveAppend(key: Key, id: nat, n: nat)
    | Saved(key: Key, id: nat)
    | SaveFailed(key: Key)
    | AnalyzeLatest(key: Key)
    | AnalyzeRows(key: Key, id: nat)
    | AnalyzeGate(key: Key, id: nat)
    | AnalyzeSeal(key: Key, id: nat)
    | NotStarted(key: Key)
    | Started(key: Key, id: nat, newJob: bool)

  datatype World = World(db: Db, clients: seq<Client>)

  datatype Event =
    | NewSave(key: Key, n: nat)
    | NewAnalyze(key: Key)
    | Advance(i: nat)
    | OtherRun(key: Key)
    | OtherRunJob(id: nat)
    | OtherRunAssets(id: nat, n: nat)

  /** One transaction of a handler. */
  function Advanced(db: Db, c: Client): (Db, Client)
    requires c.SaveAppend? || c.AnalyzeRows? || c.AnalyzeGate? || c.AnalyzeSeal? ==> c.id < |db|
  {
    match c
    case SaveFind(key, n) =>
      var open := FindOpen(db, key);
      (db, if open.Some? then SaveAppend(key, open.value, n) else SaveCreate(key, n))
    case SaveCreate(key, n) =>
      var inserted := InsertOpen(db, key);
      if inserted.Some? then (inserted.value, SaveAppend(key, |db|, n)) else (db, SaveRefind(key, n))
    case SaveRefind(key, n) =>
      var open := FindOpen(db, key);
      (db, if open.Some? then SaveAppend(key, open.value, n) else SaveFailed(key))
    case SaveAppend(key, id, n) => (Append(db, id, n), Saved(key, id))
    case AnalyzeLatest(key) =>
      var latest := LatestBefore(db, key, |db|);
      (db, if latest.Some? then AnalyzeRows(key, latest.value) else NotStarted(key))
    case AnalyzeRows(key, id) => (db, if db[id].files == 0 then NotStarted(key) else AnalyzeGate(key, id))
    case AnalyzeGate(key, id) => (db, if db[id].discoverJobs > 0 then Started(key, id, false) else AnalyzeSeal(key, id))
    case AnalyzeSeal(key, id) =>
      var (sealed, won) := Seal(db, id);
      (sealed, Started(key, id, won))
    case _ => (db, c)
  }

  predicate WellPlaced(db: Db, c: Client) {
    match c
    case SaveAppend(_, id, _) => id < |db|
    case AnalyzeRows(_, id) => id < |db|
    case AnalyzeGate(_, id) => id < |db|
    case AnalyzeSeal(_, id) => id < |db|
    case _ => true
  }

  /** One event. A run made by another route gets its job in a later transaction of its own, and
      asset rows only once that job runs. */
  function Step(w: World, ev: Event): World {
    match ev
    case NewSave(key, n) => w.(clients := w.clients + [SaveFind(key, n)])
    case NewAnalyze(key) => w.(clients := w.clients + [AnalyzeLatest(key)])
    case Advance(i) =>
      if i >= |w.clients| || !WellPlaced(w.db, w.clients[i]) then w
      else
        var (db, c) := Advanced(w.db, w.clients[i]);
        World(db, w.clients[i := c])
    case OtherRun(key) => w.(db := w.db + [Run(key, false, None, 0, 0)])
    case OtherRunJob(id) =>
      if id < |w.db| && !w.db[id].capture && w.db[id].discoverJobs == 0
      then w.(db := w.db[id := w.db[id].(discoverJobs := 1)]) else w
    case OtherRunAssets(id, n) =>
      if id < |w.db| && !w.db[id].capture && w.db[id].discoverJobs > 0 then w.(db := Append(w.db, id, n)) else w
  }

  function Play(w: World, evs: seq<Event>): World
    decreases evs
  {
    if evs == [] then w else Play(Step(w, evs[0]), evs[1..])
  }

  // ---- the invariant -------------------------------------------------------

  ghost predicate RunOk(r: Run) {
    && r.discoverJobs <= 1
    && (r.capture ==> (r.marker.None? <==> r.discoverJobs == 1))
    && (r.marker.Some? ==> r.capture && r.marker.value == r.session)
    && (!r.capture && r.files > 0 ==> r.discoverJobs == 1)
  }

  ghost predicate DbOk(db: Db) {
    && (forall i | 0 <= i < |db| :: RunOk(db[i]))
    && (forall i, j | 0 <= i < j < |db| && db[i].marker.Some? :: db[i].marker != db[j].marker)
  }

  ghost predicate ClientOk(db: Db, c: Client) {
    match c
    case SaveAppend(key, id, _) => id < |db| && db[id].capture && db[id].session == key
    case Saved(key, id) => id < |db| && db[id].capture && db[id].session == key
    case AnalyzeRows(key, id) => id < |db| && db[id].session == key
    case AnalyzeGate(key, id) => id < |db| && db[id].session == key && db[id].files > 0
    case AnalyzeSeal(key, id) => id < |db| && db[id].session == key && db[id].files > 0
    case Started(key, id, _) => id < |db| && db[id].session == key && db[id].discoverJobs == 1
    case _ => true
  }

  /** A run's job was inserted for at most one reply. */
  ghost predicate OneWinner(clients: seq<Client>) {
    forall i, j | 0 <= i < j < |clients| && clients[i].Started? && clients[j].Started? &&
      clients[i].newJob && clients[j].newJob :: clients[i].id != clients[j].id
  }

  ghost predicate ClientsOk(db: Db, clients: seq<Client>) {
    forall i | 0 <= i < |clients| :: ClientOk(db, clients[i])
  }

  /** A reply that created a job did so on a capture run. */
  ghost predicate WinnersCapture(db: Db, clients: seq<Client>) {
    forall i | 0 <= i < |clients| && clients[i].Started? && clients[i].newJob ::
      clients[i].id < |db| && db[clients[i].id].capture
  }

  ghost predicate Sealed(w: World) {
    && DbOk(w.db)
    && ClientsOk(w.db, w.clients)
    && OneWinner(w.clients)
    && WinnersCapture(w.db, w.clients)
  }

  /** What no transaction of anyone undoes. */
  ghost predicate Later(db: Db, next: Db) {
    |db| <= |next| && forall i | 0 <= i < |db| ::
      next[i].session == db[i].session && next[i].capture == db[i].capture &&
      next[i].files >= db[i].files && next[i].discoverJobs >= db[i].discoverJobs &&
      (db[i].marker.None? ==> next[i].marker.None?)
  }

  lemma ClientStaysOk(db: Db, next: Db, c: Client)
    requires ClientOk(db, c) && Later(db, next) && DbOk(next)
    ensures ClientOk(next, c)
  {
    if c.Started? {
      assert RunOk(next[c.id]);
    }
  }

  lemma TransactionOk(db: Db, c: Client)
    requires DbOk(db) && ClientOk(db, c)
    ensures var (next, d) := Advanced(db, c); DbOk(next) && Later(db, next) && ClientOk(next, d)
    ensures var (next, d) := Advanced(db, c);
      d.Started? && d.newJob && !c.Started? ==> db[d.id].capture && db[d.id].discoverJobs == 0
  {
    var (next, d) := Advanced(db, c);
    if c.AnalyzeSeal? {
      assert RunOk(db[c.id]);
    }
  }

  lemma ClientsStayOk(db: Db, next: Db, clients: seq<Client>)
    requires ClientsOk(db, clients) && Later(db, next) && DbOk(next)
    ensures ClientsOk(next, clients)
  {
    forall k | 0 <= k < |clients| ensures ClientOk(next, clients[k]) {
      ClientStaysOk(db, next, clients[k]);
    }
  }

  /** A second reply cannot have created a job that a first one did. */
  lemma StillOneWinner(db: Db, clients: seq<Client>, i: nat, d: Client)
    requires i < |clients| && ClientsOk(db, clients) && OneWinner(clients)
    requires d.Started? && d.newJob && !clients[i].Started? ==> d.id < |db| && db[d.id].discoverJobs == 0
    requires clients[i].Started? ==> d == clients[i]
    ensures OneWinner(clients[i := d])
  {
    forall k | 0 <= k < |clients| && clients[k].Started? ensures clients[k].id < |db| && db[clients[k].id].discoverJobs == 1 {
      assert ClientOk(db, clients[k]);
    }
  }

  lemma AdvanceKeepsSealed(w: World, i: nat)
    requires Sealed(w) && i < |w.clients|
    ensures Sealed(Step(w, Advance(i)))
  {
    var c := w.clients[i];
    assert ClientOk(w.db, c) && WellPlaced(w.db, c);
    TransactionOk(w.db, c);
    var (db, d) := Advanced(w.db, c);
    ClientsStayOk(w.db, db, w.clients);
    StillOneWinner(w.db, w.clients, i, d);
    WinnersStayCapture(w, db, i, d);
  }

  lemma WinnersStayCapture(w: World, db: Db, i: nat, d: Client)
    requires Sealed(w) && i < |w.clients| && Later(w.db, db) && ClientOk(db, d)
    requires d.Started? && d.newJob && !w.clients[i].Started? ==> d.id < |w.db| && w.db[d.id].capture
    requires w.clients[i].Started? ==> d == w.clients[i]
    ensures WinnersCapture(db, w.clients[i := d])
  {
  }

  lemma DbStepKeepsSealed(w: World, next: Db)
    requires Sealed(w) && DbOk(next) && Later(w.db, next)
    ensures Sealed(w.(db := next))
  {
    ClientsStayOk(w.db, next, w.clients);
  }

  lemma ArrivalKeepsSealed(w: World, c: Client)
    requires Sealed(w) && (c.SaveFind? || c.AnalyzeLatest?)
    ensures Sealed(w.(clients := w.clients + [c]))
  {
    var clients := w.clients + [c];
    forall k | 0 <= k < |clients| ensures ClientOk(w.db, clients[k]) {
      assert k < |w.clients| ==> ClientOk(w.db, w.clients[k]);
    }
  }

  lemma OtherRoutesKeepDb(w: World, ev: Event)
    requires Sealed(w) && (ev.OtherRun? || ev.OtherRunJob? || ev.OtherRunAssets?)
    ensures var next := Step(w, ev).db; Step(w, ev) == w.(db := next) && DbOk(next) && Later(w.db, next)
  {
  }

  lemma {:induction false} SealedKept(w: World, ev: Event)
    requires Sealed(w)
    ensures Sealed(Step(w, ev)) && Later(w.db, Step(w, ev).db)
  {
    match ev
    case NewSave(key, n) => ArrivalKeepsSealed(w, SaveFind(key, n));
    case NewAnalyze(key) => ArrivalKeepsSealed(w, AnalyzeLatest(key));
    case Advance(i) =>
      if i < |w.clients| {
        assert ClientOk(w.db, w.clients[i]);
        AdvanceKeepsSealed(w, i);
        TransactionOk(w.db, w.clients[i]);
      }
    case _ =>
      OtherRoutesKeepDb(w, ev);
      DbStepKeepsSealed(w, Step(w, ev).db);
  }

  lemma {:induction false} SealedFrom(w: World, evs: seq<Event>)
    requires Sealed(w)
    ensures Sealed(Play(w, evs)) && Later(w.db, Play(w, evs).db)
    decreases evs
  {
    if evs != [] {
      SealedKept(w, evs[0]);
      SealedFrom(Step(w, evs[0]), evs[1..]);
    }
  }

  /** Over every interleaving of any number of clients: at most one open run per tenant and
      session, a capture run's marker is null exactly when its discovery job exists, there is
      never a second one, every reply that says "started" names a run whose job is committed, and
      at most one of them created it. */
  lemma EveryInterleavingIsSealed(evs: seq<Event>)
    ensures var w := Play(World([], []), evs);
      && (forall i, j | 0 <= i < j < |w.db| && w.db[i].marker.Some? :: w.db[i].marker != w.db[j].marker)
      && (forall i | 0 <= i < |w.db| && w.db[i].capture :: w.db[i].marker.None? <==> w.db[i].discoverJobs == 1)
      && (forall i | 0 <= i < |w.db| :: w.db[i].discoverJobs <= 1)
      && (forall i | 0 <= i < |w.clients| && w.clients[i].Started? ::
           w.clients[i].id < |w.db| && w.db[w.clients[i].id].discoverJobs == 1)
      && OneWinner(w.clients)
  {
    SealedFrom(World([], []), evs);
    var w := Play(World([], []), evs);
    forall i | 0 <= i < |w.db| ensures RunOk(w.db[i]) {
    }
    forall i | 0 <= i < |w.clients| && w.clients[i].Started?
      ensures w.clients[i].id < |w.db| && w.db[w.clients[i].id].discoverJobs == 1
    {
      assert ClientOk(w.db, w.clients[i]);
    }
  }

  /** A save that lost the insert and then finds no open run lost to a run sealed in between. */
  lemma SaveFailsOnlyAfterSeal(w: World, evs: seq<Event>, key: Key)
    requires Sealed(w) && InsertOpen(w.db, key).None?
    requires FindOpen(Play(w, evs).db, key).None?
    ensures exists id: nat :: id < |w.db| && id < |Play(w, evs).db| && w.db[id].marker == Some(key) &&
              w.db[id].discoverJobs == 0 && Play(w, evs).db[id].discoverJobs == 1
  {
    SealedFrom(w, evs);
    var id := FindOpen(w.db, key).value;
    var later := Play(w, evs).db;
    assert RunOk(w.db[id]) && RunOk(later[id]);
  }

  /** A save that loses the insert goes on with the run it lost to, unless that one has been sealed before
      it looks again; and it fails exactly when there is then no open run at all. */
  lemma LostInsertGoesOn(w: World, i: nat, evs: seq<Event>)
    requires Sealed(w) && i < |w.clients| && w.clients[i].SaveCreate? && InsertOpen(w.db, w.clients[i].key).None?
    requires Advance(i) !in evs
    ensures var SaveCreate(key, n) := w.clients[i];
      var lost := Step(w, Advance(i));
      var later := Play(lost, evs);
      && lost == w.(clients := w.clients[i := SaveRefind(key, n)]) && i < |later.clients|
      && var after := Step(later, Advance(i)).clients;
         && i < |after| && (after[i] == SaveFailed(key) <==> forall j | 0 <= j < |later.db| :: later.db[j].marker != Some(key))
         && (after[i] != SaveFailed(key) ==> exists id: nat ::
               id < |later.db| && later.db[id].marker == Some(key) && after[i] == SaveAppend(key, id, n))
         && (!SealedDuring(lost, evs, FindOpen(w.db, key).value) ==> after[i] == SaveAppend(key, FindOpen(w.db, key).value, n))
  {
    var SaveCreate(key, n) := w.clients[i];
    var lost := Step(w, Advance(i));
    SealedKept(w, Advance(i));
    SealedFrom(lost, evs);
    ClientWaits(lost, evs, i);
    OpenUntilSealed(lost, evs, FindOpen(w.db, key).value, key);
    OneOpenRun(Play(lost, evs).db, key);
  }

  lemma OneOpenRun(db: Db, key: Key)
    requires DbOk(db)
    ensures FindOpen(db, key).None? <==> forall j | 0 <= j < |db| :: db[j].marker != Some(key)
    ensures forall j | 0 <= j < |db| && db[j].marker == Some(key) :: FindOpen(db, key) == Some(j)
  {
  }

  /** A run made by another route gets its job when it is asked for, and files only after that. */
  lemma OtherRoutesRun(w: World, key: Key, n: nat)
    ensures var id := |w.db|; var made := Step(w, OtherRun(key)); var started := Step(made, OtherRunJob(id));
      && made.db == w.db + [Run(key, false, None, 0, 0)] && Step(made, OtherRunAssets(id, n)) == made
      && started.db == w.db + [Run(key, false, None, 0, 1)] && Step(started, OtherRunJob(id)) == started
      && Step(started, OtherRunAssets(id, n)).db == w.db + [Run(key, false, None, n, 1)]
  {
  }

  // ---- where a batch lands -------------------------------------------------

  /** The event commits a seal of the run. */
  predicate SealsRun(w: World, ev: Event, id: nat) {
    ev.Advance? && ev.i < |w.clients| && w.clients[ev.i].AnalyzeSeal? && w.clients[ev.i].id == id
  }

  predicate SealedDuring(w: World, evs: seq<Event>, id: nat)
    decreases evs
  {
    evs != [] && (SealsRun(w, evs[0], id) || SealedDuring(Step(w, evs[0]), evs[1..], id))
  }

  /** A marker is nulled by a seal of its run and by nothing else. */
  lemma {:induction false} MarkerAfter(w: World, ev: Event, id: nat)
    requires Sealed(w) && id < |w.db|
    ensures id < |Step(w, ev).db|
    ensures Step(w, ev).db[id].marker == if SealsRun(w, ev, id) then None else w.db[id].marker
  {
    SealedKept(w, ev);
    if ev.Advance? && ev.i < |w.clients| {
      assert ClientOk(w.db, w.clients[ev.i]);
    }
  }

  lemma {:induction false} OpenUntilSealed(w: World, evs: seq<Event>, id: nat, key: Key)
    requires Sealed(w) && id < |w.db| && w.db[id].marker in {None, Some(key)}
    ensures id < |Play(w, evs).db|
    ensures Play(w, evs).db[id].marker ==
              if w.db[id].marker == Some(key) && !SealedDuring(w, evs, id) then Some(key) else None
    decreases evs
  {
    if evs != [] {
      SealedKept(w, evs[0]);
      MarkerAfter(w, evs[0], id);
      OpenUntilSealed(Step(w, evs[0]), evs[1..], id, key);
    }
  }

  lemma {:induction false} ClientWaits(w: World, evs: seq<Event>, i: nat)
    requires i < |w.clients| && Advance(i) !in evs
    ensures i < |Play(w, evs).clients| && Play(w, evs).clients[i] == w.clients[i]
    decreases evs
  {
    if evs != [] {
      assert evs[0] in evs;
      ClientWaits(Step(w, evs[0]), evs[1..], i);
    }
  }

  /** A save takes whichever open run its session has at one transaction and appends at a later one.
      Whatever happens in between, the batch is added to that run, and the run is still open
      exactly when no analyze has sealed it meanwhile. Otherwise its job was there first. */
  lemma LandsOnOpenRunIff(w: World, i: nat, evs: seq<Event>)
    requires Sealed(w) && i < |w.clients| && !w.clients[i].SaveAppend?
    requires Step(w, Advance(i)).clients[i].SaveAppend? && Advance(i) !in evs
    ensures var found := Step(w, Advance(i));
      var SaveAppend(key, id, n) := found.clients[i];
      var before, after := Play(found, evs), Step(Play(found, evs), Advance(i));
      && id < |found.db| && found.db[id].marker == Some(key)
      && id < |before.db| && after.db == Append(before.db, id, n)
      && i < |after.clients| && after.clients[i] == Saved(key, id)
      && (after.db[id].marker == Some(key) <==> !SealedDuring(found, evs, id))
      && (SealedDuring(found, evs, id) <==> after.db[id].marker.None? && before.db[id].discoverJobs == 1)
  {
    var found := Step(w, Advance(i));
    var SaveAppend(key, id, n) := found.clients[i];
    assert ClientOk(w.db, w.clients[i]);
    SealedKept(w, Advance(i));
    SealedFrom(found, evs);
    ClientWaits(found, evs, i);
    FoundIsOpen(w, i);
    OpenUntilSealed(found, evs, id, key);
    var before := Play(found, evs);
    assert ClientOk(before.db, before.clients[i]) && RunOk(before.db[id]);
  }

  /** A save that has just found or opened a run holds an open one. */
  lemma FoundIsOpen(w: World, i: nat)
    requires Sealed(w) && i < |w.clients| && !w.clients[i].SaveAppend?
    requires Step(w, Advance(i)).clients[i].SaveAppend?
    ensures var found := Step(w, Advance(i));
      var SaveAppend(key, id, _) := found.clients[i];
      id < |found.db| && found.db[id].marker == Some(key)
  {
    assert ClientOk(w.db, w.clients[i]);
  }

  /** Two saves and an analyze: the second save finds the run, the analyze seals it, and the second
      batch of `m` files lands on a sealed run that already has its job. */
  lemma BatchLandsAfterSeal(key: Key, n: nat, m: nat)
    requires n > 0
    ensures Play(World([], []), [NewSave(key, n), NewSave(key, m), NewAnalyze(key)]
                                + [Advance(0), Advance(0), Advance(1), Advance(0)]
                                + [Advance(2), Advance(2), Advance(2), Advance(2)] + [Advance(1)])
      == World([Run(key, true, None, n + m, 1)], [Saved(key, 0), Saved(key, 0), Started(key, 0, true)])
  {
    Arrivals(key, n, m);
    SecondSaveFindsTheRun(key, n, m);
    AnalyzeSeals(key, n, SaveAppend(key, 0, m));
    SecondSaveAppends(key, n, m);
    InFourParts(World([], []), [NewSave(key, n), NewSave(key, m), NewAnalyze(key)],
                [Advance(0), Advance(0), Advance(1), Advance(0)], [Advance(2), Advance(2), Advance(2), Advance(2)], [Advance(1)]);
  }

  lemma InFourParts(w: World, a: seq<Event>, b: seq<Event>, c: seq<Event>, d: seq<Event>)
    ensures Play(w, a + b + c + d) == Play(Play(Play(Play(w, a), b), c), d)
  {
    PlayAppend(w, a, b);
    PlayAppend(w, a + b, c);
    PlayAppend(w, a + b + c, d);
  }

  lemma SecondSaveAppends(key: Key, n: nat, m: nat)
    ensures Play(World([Run(key, true, None, n, 1)], [Saved(key, 0), SaveAppend(key, 0, m), Started(key, 0, true)]), [Advance(1)])
      == World([Run(key, true, None, n + m, 1)], [Saved(key, 0), Saved(key, 0), Started(key, 0, true)])
  {
    var sealed := World([Run(key, true, None, n, 1)], [Saved(key, 0), SaveAppend(key, 0, m), Started(key, 0, true)]);
    assert Play(sealed, [Advance(1)]) == Step(sealed, Advance(1));
  }

  lemma Arrivals(key: Key, n: nat, m: nat)
    ensures Play(World([], []), [NewSave(key, n), NewSave(key, m), NewAnalyze(key)])
      == World([], [SaveFind(key, n), SaveFind(key, m), AnalyzeLatest(key)])
  {
    var one := World([], [SaveFind(key, n)]);
    var two := World([], [SaveFind(key, n), SaveFind(key, m)]);
    assert Step(World([], []), NewSave(key, n)) == one;
    assert Step(one, NewSave(key, m)) == two;
    assert Play(two, [NewAnalyze(key)]) == Step(two, NewAnalyze(key));
    assert Play(one, [NewSave(key, m), NewAnalyze(key)]) == Play(two, [NewAnalyze(key)]);
  }

  lemma SecondSaveFindsTheRun(key: Key, n: nat, m: nat)
    ensures Play(World([], [SaveFind(key, n), SaveFind(key, m), AnalyzeLatest(key)]),
                 [Advance(0), Advance(0), Advance(1), Advance(0)])
      == World([Run(key, true, Some(key), n, 0)], [Saved(key, 0), SaveAppend(key, 0, m), AnalyzeLatest(key)])
  {
    var start := World([], [SaveFind(key, n), SaveFind(key, m), AnalyzeLatest(key)]);
    var missed := World([], [SaveCreate(key, n), SaveFind(key, m), AnalyzeLatest(key)]);
    var empty := [Run(key, true, Some(key), 0, 0)];
    var created := World(empty, [SaveAppend(key, 0, n), SaveFind(key, m), AnalyzeLatest(key)]);
    var found := World(empty, [SaveAppend(key, 0, n), SaveAppend(key, 0, m), AnalyzeLatest(key)]);
    assert Step(start, Advance(0)) == missed && Step(missed, Advance(0)) == created;
    assert FindOpen(empty, key) == Some(0) && Step(created, Advance(1)) == found;
    assert Play(found, [Advance(0)]) == Step(found, Advance(0));
    assert Play(created, [Advance(1), Advance(0)]) == Play(found, [Advance(0)]);
    assert Play(missed, [Advance(0), Advance(1), Advance(0)]) == Play(created, [Advance(1), Advance(0)]);
    assert Play(start, [Advance(0), Advance(0), Advance(1), Advance(0)]) == Play(missed, [Advance(0), Advance(1), Advance(0)]);
  }

  lemma AnalyzeSeals(key: Key, n: nat, other: Client)
    requires n > 0
    ensures Play(World([Run(key, true, Some(key), n, 0)], [Saved(key, 0), other, AnalyzeLatest(key)]),
                 [Advance(2), Advance(2), Advance(2), Advance(2)])
      == World([Run(key, true, None, n, 1)], [Saved(key, 0), other, Started(key, 0, true)])
  {
    var runs := [Run(key, true, Some(key), n, 0)];
    var latest := World(runs, [Saved(key, 0), other, AnalyzeLatest(key)]);
    var rows := World(runs, [Saved(key, 0), other, AnalyzeRows(key, 0)]);
    var gate := World(runs, [Saved(key, 0), other, AnalyzeGate(key, 0)]);
    var seal := World(runs, [Saved(key, 0), other, AnalyzeSeal(key, 0)]);
    assert Step(latest, Advance(2)) == rows && Step(rows, Advance(2)) == gate && Step(gate, Advance(2)) == seal;
    assert Play(seal, [Advance(2)]) == Step(seal, Advance(2));
    assert Play(gate, [Advance(2), Advance(2)]) == Play(seal, [Advance(2)]);
    assert Play(rows, [Advance(2), Advance(2), Advance(2)]) == Play(gate, [Advance(2), Advance(2)]);
  }

  lemma {:induction false} PlayAppend(w: World, a: seq<Event>, b: seq<Event>)
    ensures Play(w, a + b) == Play(Play(w, a), b)
    decreases a
  {
    if a == [] {
      assert a + b == b;
    } else {
      assert (a + b)[0] == a[0] && (a + b)[1..] == a[1..] + b;
      PlayAppend(Step(w, a[0]), a[1..], b);
    }
  }

  // ---- the database object -------------------------------------------------

  /** The tables as the handlers change them. */
  class CaptureDatabase {
    var runs: seq<Run>

    constructor ()
      ensures runs == []
    {
      runs := [];
    }

    method OpenRun(key: Key) returns (id: Option<nat>)
      ensures id == FindOpen(runs, key)
    {
      for i := 0 to |runs|
        invariant FindOpen(runs, key) == FindOpenFrom(runs, key, i)
      {
        if runs[i].marker == Some(key) {
          return Some(i);
        }
      }
      return None;
    }

    /** `create_run` with a marker: `None` is the integrity error. */
    method CreateOpenRun(key: Key) returns (id: Option<nat>)
      modifies this
      ensures id == if InsertOpen(old(runs), key).Some? then Some(|old(runs)|) else None
      ensures runs == if InsertOpen(old(runs), key).Some? then InsertOpen(old(runs), key).value else old(runs)
    {
      var open := OpenRun(key);
      if open.Some? {
        return None;
      }
      id := Some(|runs|);
      runs := runs + [Run(key, true, Some(key), 0, 0)];
    }

    /** The guarded update and the job insert, in one transaction. */
    method SealRun(id: nat) returns (won: bool)
      requires id < |runs|
      modifies this
      ensures (runs, won) == Seal(old(runs), id)
    {
      won := runs[id].marker.Some?;
      if won {
        runs := runs[id := runs[id].(marker := None, discoverJobs := runs[id].discoverJobs + 1)];
      }
    }

    /** `_accumulating_run_id` with nobody else at work: it finds or opens the session's run. */
    method AccumulatingRunId(key: Key) returns (id: nat)
      requires DbOk(runs)
      modifies this
      ensures DbOk(runs) && id < |runs| && runs[id].marker == Some(key)
      ensures runs == old(runs) || runs == old(runs) + [Run(key, true, Some(key), 0, 0)]
      ensures (exists i | 0 <= i < |old(runs)| :: old(runs)[i].marker == Some(key)) <==> runs == old(runs)
    {
      var existing := OpenRun(key);
      if existing.Some? {
        return existing.value;
      }
      var created := CreateOpenRun(key);
      return created.value;
    }

    /** `analyze_start` with nobody else at work: the newest run is sealed once, and asking again
        starts nothing new. */
    method AnalyzeStart(key: Key) returns (started: bool, id: nat, newJob: bool)
      requires DbOk(runs)
      modifies this
      ensures DbOk(runs) && |runs| == |old(runs)|
      ensures var latest := LatestBefore(old(runs), key, |old(runs)|);
        (started <==> latest.Some? && old(runs)[latest.value].files > 0) && (started ==> id == latest.value)
      ensures started ==> runs[id].discoverJobs == 1 && (newJob <==> old(runs)[id].discoverJobs == 0)
      ensures newJob ==> started && runs == Seal(old(runs), id).0
      ensures !newJob ==> runs == old(runs)
    {
      var i: nat := |runs|;
      while i > 0 && runs[i - 1].session != key
        invariant i <= |runs| && LatestBefore(runs, key, |runs|) == LatestBefore(runs, key, i)
      {
        i := i - 1;
      }
      if i == 0 || runs[i - 1].files == 0 {
        return false, 0, false;
      }
      id := i - 1;
      assert RunOk(runs[id]);
      if runs[id].discoverJobs > 0 {
        return true, id, false;
      }
      newJob := SealRun(id);
      return true, id, newJob;
    }
  }
}
