/** How far apart the host gate keeps two fetches of one host (fetch/politeness.py). */
module RateSpacing {
  import opened Basics
  import opened RateLimit

  // ---- passes of the host gate ---------------------------------------------

  predicate SameHost(a: Pass, b: Pass, cfg: Settings) {
    cfg.fold(a.host) == cfg.fold(b.host)
  }

  /** Behind a pass that took the slot everyone is at least the interval late, in whole
      milliseconds, and the next to take it more than that. */
  predicate Apart(a: Pass, b: Pass, cfg: Settings) {
    SameHost(a, b, cfg) && a.slot ==>
      b.at >= a.at + IntervalMs(cfg) && (b.slot ==> b.at > a.at + IntervalMs(cfg))
  }

  ghost predicate Spaced(w: World, cfg: Settings) {
    && (forall i | 0 <= i < |w.passes| :: w.passes[i].at <= w.clock)
    && (forall i | 0 <= i < |w.passes| && w.passes[i].slot ::
          var key := cfg.fold(w.passes[i].host); key in w.store.hosts && w.store.hosts[key] >= w.passes[i].at + IntervalMs(cfg))
    && (forall i, j | 0 <= i < j < |w.passes| :: Apart(w.passes[i], w.passes[j], cfg))
  }

  lemma {:induction false} OpenedSpaced(w: World, cfg: Settings, worker: nat, now: nat, host: string, slot: bool)
    requires Spaced(w, cfg) && (slot ==> cfg.interval > 0.0)
    requires var key := cfg.fold(host); key in w.store.hosts ==> w.clock >= w.store.hosts[key]
    requires slot ==> cfg.fold(host) !in w.store.hosts || w.store.hosts[cfg.fold(host)] < w.clock
    ensures var st := if slot then SetNx(w.store, cfg.fold(host), IntervalMs(cfg), w.clock) else w.store;
      Spaced(Opened(w.(store := st), worker, now, host, slot), cfg)
  {
  }

  lemma {:induction false} TrySpaced(before: World, cfg: Settings, after: nat, worker: nat)
    requires Spaced(before, cfg) && cfg.interval > 0.0
    ensures Spaced(Step(before, cfg, after, TryHost(worker)), cfg)
  {
    var w := before.(clock := before.clock + after);
    assert Spaced(w, cfg);
    if worker in w.phases && w.phases[worker].Ready? && IntervalMs(cfg) > 0 && !Held(w.store, cfg.fold(w.phases[worker].host), w.clock) {
      OpenedSpaced(w, cfg, worker, w.phases[worker].now, w.phases[worker].host, true);
    }
  }

  lemma {:induction false} ReadSpaced(before: World, cfg: Settings, after: nat, worker: nat)
    requires Spaced(before, cfg) && cfg.interval > 0.0
    ensures Spaced(Step(before, cfg, after, ReadTtl(worker)), cfg)
  {
    var w := before.(clock := before.clock + after);
    assert Spaced(w, cfg);
    if worker in w.phases && w.phases[worker].Lost? && Pttl(w.store, cfg.fold(w.phases[worker].host), w.clock) == 0 {
      OpenedSpaced(w, cfg, worker, w.phases[worker].now, w.phases[worker].host, false);
    }
  }

  lemma {:induction false} OtherSpaced(w: World, cfg: Settings, after: nat, ev: Event)
    requires Spaced(w, cfg) && (ev.Start? || ev.CountUp?)
    ensures Spaced(Step(w, cfg, after, ev), cfg)
  {
    var v := Step(w, cfg, after, ev);
    assert v.passes == w.passes && v.store.hosts == w.store.hosts;
  }

  lemma {:induction false} StepSpaced(w: World, cfg: Settings, after: nat, ev: Event)
    requires Spaced(w, cfg) && cfg.interval > 0.0
    ensures Spaced(Step(w, cfg, after, ev), cfg)
  {
    match ev
    case TryHost(worker) => TrySpaced(w, cfg, after, worker);
    case ReadTtl(worker) => ReadSpaced(w, cfg, after, worker);
    case _ => OtherSpaced(w, cfg, after, ev);
  }

  /** A loser reads its remaining time in the millisecond the slot expires at. */
  predicate ZeroRead(w: World, cfg: Settings, after: nat, ev: Event) {
    ev.ReadTtl? && ev.worker in w.phases && w.phases[ev.worker].Lost? &&
    Lookup(w.store.hosts, cfg.fold(w.phases[ev.worker].host)) == Some(w.clock + after)
  }

  predicate NoZeroRead(w: World, cfg: Settings, evs: seq<(nat, Event)>)
    decreases evs
  {
    evs == [] ||
    (!ZeroRead(w, cfg, evs[0].0, evs[0].1) && NoZeroRead(Step(w, cfg, evs[0].0, evs[0].1), cfg, evs[1..]))
  }

  ghost predicate AllSlots(w: World) {
    forall i | 0 <= i < |w.passes| :: w.passes[i].slot
  }

  lemma StepAllSlots(w: World, cfg: Settings, after: nat, ev: Event)
    requires AllSlots(w) && cfg.interval > 0.0 && !ZeroRead(w, cfg, after, ev)
    ensures AllSlots(Step(w, cfg, after, ev))
  {
  }

  lemma {:induction false} PlaySpaced(w: World, cfg: Settings, evs: seq<(nat, Event)>)
    requires Spaced(w, cfg) && cfg.interval > 0.0
    ensures Spaced(Play(w, cfg, evs), cfg)
    ensures AllSlots(w) && NoZeroRead(w, cfg, evs) ==> AllSlots(Play(w, cfg, evs))
    decreases evs
  {
    if evs != [] {
      var next := Step(w, cfg, evs[0].0, evs[0].1);
      StepSpaced(w, cfg, evs[0].0, evs[0].1);
      PlaySpaced(next, cfg, evs[1..]);
      if AllSlots(w) && NoZeroRead(w, cfg, evs) {
        StepAllSlots(w, cfg, evs[0].0, evs[0].1);
      }
    }
  }

  /** In a run in which no loser reads its remaining time in the expiry millisecond, any two passes
      for one host are more than the configured interval apart. */
  lemma PassesAreSpaced(cfg: Settings, evs: seq<(nat, Event)>, i: nat, j: nat)
    requires cfg.interval > 0.0 && NoZeroRead(Quiet(), cfg, evs)
    requires var w := Play(Quiet(), cfg, evs); i < j < |w.passes| && SameHost(w.passes[i], w.passes[j], cfg)
    ensures var w := Play(Quiet(), cfg, evs); (w.passes[j].at - w.passes[i].at) as real / 1000.0 > cfg.interval
  {
    PlaySpaced(Quiet(), cfg, evs);
    var w := Play(Quiet(), cfg, evs);
    assert Apart(w.passes[i], w.passes[j], cfg);
  }

  lemma Above(s: set<nat>) returns (k: nat)
    ensures forall x | x in s :: x < k
  {
    k := 0;
    if s != {} {
      var x :| x in s;
      var rest := Above(s - {x});
      k := if rest > x then rest else x + 1;
      assert s == (s - {x}) + {x};
    }
  }

  /** And a single such reading undoes it, from any world: the loser is let through without taking
      the slot, and so is any other worker in that millisecond. */
  lemma ZeroReadUnspaces(w: World, cfg: Settings, after: nat, ev: Event) returns (more: seq<(nat, Event)>)
    requires IntervalMs(cfg) > 0 && ZeroRead(w, cfg, after, ev)
    ensures var end := Play(Step(w, cfg, after, ev), cfg, more); var n := |w.passes|;
      && |end.passes| == n + 2 && end.passes[..n] == w.passes
      && SameHost(end.passes[n], end.passes[n + 1], cfg) && end.passes[n].at == end.passes[n + 1].at
  {
    var host := w.phases[ev.worker].host;
    var v := Step(w, cfg, after, ev);
    var k := Above(v.phases.Keys);
    var t := v.clock;
    more := [(0, Start(k, host)), (0, TryHost(k)), (0, ReadTtl(k))];
    var v1 := Step(v, cfg, 0, Start(k, host));
    var v2 := Step(v1, cfg, 0, TryHost(k));
    var v3 := Step(v2, cfg, 0, ReadTtl(k));
    assert v.passes == w.passes + [Pass(host, t, false)];
    assert v1 == v.(phases := v.phases[k := Ready(t, host)]);
    assert v2 == v1.(phases := v1.phases[k := Lost(t, host)]);
    assert v3.passes == v.passes + [Pass(host, t, false)];
    assert more[1..][1..] == [(0, ReadTtl(k))] && more[1..][0] == (0, TryHost(k));
    assert Play(v2, cfg, more[1..][1..]) == v3;
    assert Play(v1, cfg, more[1..]) == v3;
    assert Play(v, cfg, more) == v3;
  }

  /** Two grants for one host at the same instant. */
  lemma ZeroTtlLetsTwoThrough(fold: string -> string, host: string)
    ensures var evs := Call(0, host, 0, 0, 0, 0) + Call(1, host, 1000, 0, 0, 0) + Call(2, host, 0, 0, 0, 0);
      var w := Play(Quiet(), Settings(1.0, 0, fold), evs);
      && |w.passes| == 3 && w.passes[1] == w.passes[2] == Pass(host, 1000, false)
      && |w.granted| == 3 && w.granted[1] == Grant(1, 1000, 1000) && w.granted[2] == Grant(2, 1000, 1000)
  {
    var cfg := Settings(1.0, 0, fold);
    var first, second, third := Call(0, host, 0, 0, 0, 0), Call(1, host, 1000, 0, 0, 0), Call(2, host, 0, 0, 0, 0);
    PlayAppend(Quiet(), cfg, first, second);
    PlayAppend(Quiet(), cfg, first + second, third);
    AloneIsCheck(Quiet(), cfg, 0, host, 0, 0, 0, 0);
    var w1 := Play(Quiet(), cfg, first);
    assert w1.store.hosts[fold(host)] == 1000;
    AloneIsCheck(w1, cfg, 1, host, 1000, 0, 0, 0);
    AloneIsCheck(Play(w1, cfg, second), cfg, 2, host, 0, 0, 0, 0);
  }

  // ---- grants --------------------------------------------------------------

  /** Every grant is a pass of its own. */
  ghost predicate TicketsOk(phases: map<nat, Phase>, passes: nat, granted: seq<Grant>) {
    && (forall k | k in phases && phases[k].Through? :: phases[k].pass < passes && Unused(granted, phases[k].pass))
    && (forall a, b | a in phases && b in phases && phases[a].Through? && phases[b].Through? && phases[a].pass == phases[b].pass :: a == b)
    && (forall i | 0 <= i < |granted| :: granted[i].pass < passes)
    && (forall i, j | 0 <= i < j < |granted| :: granted[i].pass != granted[j].pass)
  }

  predicate Unused(granted: seq<Grant>, pass: nat) {
    forall i | 0 <= i < |granted| :: granted[i].pass != pass
  }

  ghost predicate Ticketed(w: World) {
    TicketsOk(w.phases, |w.passes|, w.granted)
  }

  lemma WaitingTickets(phases: map<nat, Phase>, passes: nat, granted: seq<Grant>, worker: nat, phase: Phase)
    requires TicketsOk(phases, passes, granted) && !phase.Through?
    ensures TicketsOk(phases - {worker}, passes, granted) && TicketsOk(phases[worker := phase], passes, granted)
  {
  }

  lemma OpenedTickets(phases: map<nat, Phase>, passes: nat, granted: seq<Grant>, worker: nat, now: nat)
    requires TicketsOk(phases, passes, granted)
    ensures TicketsOk(phases[worker := Through(now, passes)], passes + 1, granted)
  {
  }

  lemma GrantedTickets(phases: map<nat, Phase>, passes: nat, granted: seq<Grant>, worker: nat, read: nat, at: nat)
    requires TicketsOk(phases, passes, granted) && worker in phases && phases[worker].Through?
    ensures TicketsOk(phases - {worker}, passes, granted + [Grant(phases[worker].pass, read, at)])
  {
  }

  lemma {:induction false} TryHostTicketed(w: World, cfg: Settings, worker: nat, now: nat, host: string)
    requires Ticketed(w)
    ensures Ticketed(TryHostStep(w, cfg, worker, now, host))
  {
    WaitingTickets(w.phases, |w.passes|, w.granted, worker, Lost(now, host));
    OpenedTickets(w.phases, |w.passes|, w.granted, worker, now);
  }

  lemma {:induction false} CountTicketed(w: World, cfg: Settings, worker: nat)
    requires Ticketed(w) && worker in w.phases && w.phases[worker].Through?
    ensures Ticketed(CountStep(w, cfg, worker, w.phases[worker].now, w.phases[worker].pass))
  {
    WaitingTickets(w.phases, |w.passes|, w.granted, worker, Ready(0, ""));
    GrantedTickets(w.phases, |w.passes|, w.granted, worker, w.phases[worker].now, w.clock);
  }

  lemma {:induction false} StartTicketed(w: World, cfg: Settings, after: nat, worker: nat, host: string)
    requires Ticketed(w)
    ensures Ticketed(Step(w, cfg, after, Start(worker, host)))
  {
    WaitingTickets(w.phases, |w.passes|, w.granted, worker, Ready(w.clock + after, host));
  }

  lemma {:induction false} ReadTicketed(w: World, cfg: Settings, after: nat, worker: nat)
    requires Ticketed(w)
    ensures Ticketed(Step(w, cfg, after, ReadTtl(worker)))
  {
    if worker in w.phases && w.phases[worker].Lost? {
      WaitingTickets(w.phases, |w.passes|, w.granted, worker, w.phases[worker]);
      OpenedTickets(w.phases, |w.passes|, w.granted, worker, w.phases[worker].now);
    }
  }

  lemma {:induction false} TryTicketed(before: World, cfg: Settings, after: nat, worker: nat)
    requires Ticketed(before)
    ensures Ticketed(Step(before, cfg, after, TryHost(worker)))
  {
    if worker in before.phases && before.phases[worker].Ready? {
      TryHostTicketed(before.(clock := before.clock + after), cfg, worker, before.phases[worker].now, before.phases[worker].host);
    }
  }

  lemma {:induction false} UpTicketed(before: World, cfg: Settings, after: nat, worker: nat)
    requires Ticketed(before)
    ensures Ticketed(Step(before, cfg, after, CountUp(worker)))
  {
    if worker in before.phases && before.phases[worker].Through? {
      var w := before.(clock := before.clock + after);
      assert Step(before, cfg, after, CountUp(worker)) == CountStep(w, cfg, worker, w.phases[worker].now, w.phases[worker].pass);
      CountTicketed(w, cfg, worker);
    } else {
      assert Step(before, cfg, after, CountUp(worker)) == before.(clock := before.clock + after);
    }
  }

  lemma {:induction false} StepTicketed(w: World, cfg: Settings, after: nat, ev: Event)
    requires Ticketed(w)
    ensures Ticketed(Step(w, cfg, after, ev))
  {
    match ev
    case Start(worker, host) => StartTicketed(w, cfg, after, worker, host);
    case TryHost(worker) => TryTicketed(w, cfg, after, worker);
    case ReadTtl(worker) => ReadTicketed(w, cfg, after, worker);
    case CountUp(worker) => UpTicketed(w, cfg, after, worker);
  }

  lemma {:induction false} PlayTicketed(w: World, cfg: Settings, evs: seq<(nat, Event)>)
    requires Ticketed(w)
    ensures Ticketed(Play(w, cfg, evs))
    decreases evs
  {
    if evs != [] {
      StepTicketed(w, cfg, evs[0].0, evs[0].1);
      PlayTicketed(Step(w, cfg, evs[0].0, evs[0].1), cfg, evs[1..]);
    }
  }

  /** No two calls return on one pass of the host gate. */
  lemma EveryGrantItsOwnPass(cfg: Settings, evs: seq<(nat, Event)>, i: nat, j: nat)
    requires var w := Play(Quiet(), cfg, evs); i < j < |w.granted|
    ensures var w := Play(Quiet(), cfg, evs); w.granted[i].pass != w.granted[j].pass && w.granted[i].pass < |w.passes|
  {
    PlayTicketed(Quiet(), cfg, evs);
  }

  /** Every call returns at most `lag` milliseconds after it passed the host gate. */
  predicate Steady(w: World, cfg: Settings, evs: seq<(nat, Event)>, lag: nat)
    decreases evs
  {
    evs == [] ||
    var (after, ev) := evs[0];
    && (ev.CountUp? && ev.worker in w.phases && w.phases[ev.worker].Through? && w.phases[ev.worker].pass < |w.passes| ==>
          w.clock + after <= w.passes[w.phases[ev.worker].pass].at + lag)
    && Steady(Step(w, cfg, after, ev), cfg, evs[1..], lag)
  }

  ghost predicate Timed(w: World, lag: nat) {
    && (forall i | 0 <= i < |w.passes| :: w.passes[i].at <= w.clock)
    && (forall k | k in w.phases && w.phases[k].Through? :: w.phases[k].pass < |w.passes|)
    && (forall i | 0 <= i < |w.granted| :: w.granted[i].pass < |w.passes| &&
          w.passes[w.granted[i].pass].at <= w.granted[i].at <= w.passes[w.granted[i].pass].at + lag)
  }

  lemma {:induction false} OpenedTimed(w: World, lag: nat, worker: nat, now: nat, host: string, slot: bool)
    requires Timed(w, lag)
    ensures Timed(Opened(w, worker, now, host, slot), lag)
  {
    var v := Opened(w, worker, now, host, slot);
    assert forall i | 0 <= i < |w.passes| :: v.passes[i] == w.passes[i];
  }

  lemma {:induction false} TryHostTimed(w: World, cfg: Settings, lag: nat, worker: nat, now: nat, host: string)
    requires Timed(w, lag)
    ensures Timed(TryHostStep(w, cfg, worker, now, host), lag)
  {
    var taken := w.(store := SetNx(w.store, cfg.fold(host), IntervalMs(cfg), w.clock));
    assert Timed(taken, lag);
    OpenedTimed(w, lag, worker, now, host, false);
    OpenedTimed(taken, lag, worker, now, host, true);
  }

  lemma {:induction false} CountTimed(w: World, cfg: Settings, lag: nat, worker: nat)
    requires Timed(w, lag) && worker in w.phases && w.phases[worker].Through?
    requires w.clock <= w.passes[w.phases[worker].pass].at + lag
    ensures Timed(CountStep(w, cfg, worker, w.phases[worker].now, w.phases[worker].pass), lag)
  {
  }

  lemma {:induction false} StepTimed(w: World, cfg: Settings, after: nat, ev: Event, lag: nat)
    requires Timed(w, lag)
    requires ev.CountUp? && ev.worker in w.phases && w.phases[ev.worker].Through? ==>
      w.clock + after <= w.passes[w.phases[ev.worker].pass].at + lag
    ensures Timed(Step(w, cfg, after, ev), lag)
  {
    var v := w.(clock := w.clock + after);
    assert Timed(v, lag);
    if ev.worker in v.phases {
      var phase := v.phases[ev.worker];
      if ev.TryHost? && phase.Ready? {
        TryHostTimed(v, cfg, lag, ev.worker, phase.now, phase.host);
      } else if ev.ReadTtl? && phase.Lost? {
        OpenedTimed(v, lag, ev.worker, phase.now, phase.host, false);
      } else if ev.CountUp? && phase.Through? {
        CountTimed(v, cfg, lag, ev.worker);
      }
    }
  }

  lemma {:induction false} PlayTimed(w: World, cfg: Settings, evs: seq<(nat, Event)>, lag: nat)
    requires Timed(w, lag) && Steady(w, cfg, evs, lag)
    ensures Timed(Play(w, cfg, evs), lag)
    decreases evs
  {
    if evs != [] {
      StepTimed(w, cfg, evs[0].0, evs[0].1, lag);
      PlayTimed(Step(w, cfg, evs[0].0, evs[0].1), cfg, evs[1..], lag);
    }
  }

  /** Two grants for one host, `i` the one that passed the gate first. */
  ghost predicate InTurn(w: World, cfg: Settings, i: nat, j: nat) {
    i < |w.granted| && j < |w.granted| && w.granted[i].pass < w.granted[j].pass < |w.passes| &&
    SameHost(w.passes[w.granted[i].pass], w.passes[w.granted[j].pass], cfg)
  }

  ghost predicate GrantsApart(w: World, cfg: Settings) {
    forall i: nat, j: nat | InTurn(w, cfg, i, j) :: (w.granted[j].at - w.granted[i].at) as real / 1000.0 >= cfg.interval
  }

  /** Between the instants two calls return there are at least the whole milliseconds of the
      interval and one more, less the time the first spent between its two gates. */
  lemma GrantsAreSpaced(cfg: Settings, evs: seq<(nat, Event)>, lag: nat, i: nat, j: nat)
    requires cfg.interval > 0.0 && NoZeroRead(Quiet(), cfg, evs) && Steady(Quiet(), cfg, evs, lag)
    requires InTurn(Play(Quiet(), cfg, evs), cfg, i, j)
    ensures var w := Play(Quiet(), cfg, evs); w.granted[j].at - w.granted[i].at >= IntervalMs(cfg) + 1 - lag
  {
    PlayTimed(Quiet(), cfg, evs, lag);
    PlaySpaced(Quiet(), cfg, evs);
    var w := Play(Quiet(), cfg, evs);
    assert Apart(w.passes[w.granted[i].pass], w.passes[w.granted[j].pass], cfg);
  }

  ghost predicate IntervalKept(cfg: Settings, lag: nat) {
    forall evs | NoZeroRead(Quiet(), cfg, evs) && Steady(Quiet(), cfg, evs, lag) :: GrantsApart(Play(Quiet(), cfg, evs), cfg)
  }

  predicate WholeMs(cfg: Settings) {
    IntervalMs(cfg) as real == cfg.interval * 1000.0
  }

  /** Calls that pass both gates in the same millisecond are always the configured interval apart,
      and so are those that take one more when the interval is a whole number of milliseconds.
      Any longer between the gates and two calls can return closer together than the interval. */
  lemma IntervalKeptIff(cfg: Settings, lag: nat)
    requires IntervalMs(cfg) > 0
    ensures IntervalKept(cfg, lag) <==> lag == 0 || (lag == 1 && WholeMs(cfg))
  {
    if lag == 0 || (lag == 1 && WholeMs(cfg)) {
      forall evs, i: nat, j: nat | NoZeroRead(Quiet(), cfg, evs) && Steady(Quiet(), cfg, evs, lag) && InTurn(Play(Quiet(), cfg, evs), cfg, i, j)
        ensures var w := Play(Quiet(), cfg, evs); (w.granted[j].at - w.granted[i].at) as real / 1000.0 >= cfg.interval
      {
        GrantsAreSpaced(cfg, evs, lag, i, j);
      }
    } else {
      var d: nat := if WholeMs(cfg) then 2 else 1;
      var evs := SlowThenQuick(cfg, d);
      SlowThenQuickTooClose(cfg, d);
      SteadySooner(Quiet(), cfg, evs, d, lag);
      var w := Play(Quiet(), cfg, evs);
      assert InTurn(w, cfg, 0, 1);
    }
  }

  lemma {:induction false} SteadySooner(w: World, cfg: Settings, evs: seq<(nat, Event)>, lag: nat, longer: nat)
    requires Steady(w, cfg, evs, lag) && lag <= longer
    ensures Steady(w, cfg, evs, longer)
    decreases evs
  {
    if evs != [] {
      SteadySooner(Step(w, cfg, evs[0].0, evs[0].1), cfg, evs[1..], lag, longer);
    }
  }

  /** One call dwells `d` milliseconds between its gates; the next takes the slot as soon as it can. */
  function SlowThenQuick(cfg: Settings, d: nat): seq<(nat, Event)>
    requires d <= IntervalMs(cfg) + 1
  {
    Call(0, "", 999, 0, 0, d) + Call(1, "", IntervalMs(cfg) + 1 - d, 0, 0, 0)
  }

  /** A lone call that wins the slot is steady and reads no remaining time. */
  lemma LoneWinner(w: World, cfg: Settings, worker: nat, host: string, d: nat, dwell: nat)
    requires worker !in w.phases && IntervalMs(cfg) > 0 && !Held(w.store, cfg.fold(host), w.clock + d)
    ensures var evs := Call(worker, host, d, 0, 0, dwell); NoZeroRead(w, cfg, evs) && Steady(w, cfg, evs, dwell)
  {
    var evs := Call(worker, host, d, 0, 0, dwell);
    var w1 := Step(w, cfg, d, Start(worker, host));
    var w2 := Step(w1, cfg, 0, TryHost(worker));
    var w3 := Step(w2, cfg, 0, ReadTtl(worker));
    assert w2.phases[worker] == Through(w.clock + d, |w.passes|) && w2.passes[|w.passes|].at == w.clock + d;
    assert evs[1..][1..][1..][0] == (dwell, CountUp(worker)) && |evs| == 4;
    assert evs[1..][1..][0] == (0, ReadTtl(worker)) && evs[1..][0] == (0, TryHost(worker));
    assert NoZeroRead(w3, cfg, evs[1..][1..][1..]) && Steady(w3, cfg, evs[1..][1..][1..], dwell);
    assert NoZeroRead(w2, cfg, evs[1..][1..]) && Steady(w2, cfg, evs[1..][1..], dwell);
    assert NoZeroRead(w1, cfg, evs[1..]) && Steady(w1, cfg, evs[1..], dwell);
  }

  lemma {:induction false} SteadyAppend(w: World, cfg: Settings, a: seq<(nat, Event)>, b: seq<(nat, Event)>, lag: nat)
    requires Steady(w, cfg, a, lag) && Steady(Play(w, cfg, a), cfg, b, lag)
    requires NoZeroRead(w, cfg, a) && NoZeroRead(Play(w, cfg, a), cfg, b)
    ensures Steady(w, cfg, a + b, lag) && NoZeroRead(w, cfg, a + b)
    decreases a
  {
    if a == [] {
      assert a + b == b;
    } else {
      assert (a + b)[1..] == a[1..] + b;
      SteadyAppend(Step(w, cfg, a[0].0, a[0].1), cfg, a[1..], b, lag);
    }
  }

  lemma FirstOfItsSecond(st: Store, cfg: Settings, host: string, now: nat, incrAt: nat)
    requires IntervalMs(cfg) > 0 && !Held(st, cfg.fold(host), now) && now / 1000 !in st.seconds
    ensures HostGate(st, cfg, host, now, now).1 == Wait(0.0) && PassOf(st, cfg, host, now, now) == Pass(host, now, true)
    ensures var (end, reply) := Check(st, cfg, host, now, now, now, incrAt);
      && reply == Wait(0.0) && end.hosts == st.hosts[cfg.fold(host) := now + IntervalMs(cfg)]
      && end.seconds.Keys <= st.seconds.Keys + {now / 1000}
  {
  }

  /** A lone call that wins the slot and is the first of its second to be counted is granted, and
      its slot and its second are then in the store. */
  ghost predicate Wins(w: World, end: World, cfg: Settings, host: string, d: nat, dwell: nat) {
    var now := w.clock + d;
    && end.clock == now + dwell && end.phases == w.phases
    && end.passes == w.passes + [Pass(host, now, true)] && end.granted == w.granted + [Grant(|w.passes|, now, now + dwell)]
    && end.store.hosts == w.store.hosts[cfg.fold(host) := now + IntervalMs(cfg)]
    && end.store.seconds.Keys <= w.store.seconds.Keys + {now / 1000}
  }

  lemma CheckWins(w: World, end: World, cfg: Settings, host: string, d: nat, dwell: nat)
    requires IntervalMs(cfg) > 0 && !Held(w.store, cfg.fold(host), w.clock + d)
    requires (w.clock + d) / 1000 !in w.store.seconds && IsOneCheck(w, end, cfg, host, d, 0, 0, dwell)
    ensures Wins(w, end, cfg, host, d, dwell)
  {
    FirstOfItsSecond(w.store, cfg, host, w.clock + d, w.clock + d + dwell);
  }

  lemma LoneGrant(w: World, cfg: Settings, worker: nat, host: string, d: nat, dwell: nat)
    requires worker !in w.phases && IntervalMs(cfg) > 0 && !Held(w.store, cfg.fold(host), w.clock + d)
    requires (w.clock + d) / 1000 !in w.store.seconds
    ensures Wins(w, Play(w, cfg, Call(worker, host, d, 0, 0, dwell)), cfg, host, d, dwell)
  {
    AloneIsCheck(w, cfg, worker, host, d, 0, 0, dwell);
    CheckWins(w, Play(w, cfg, Call(worker, host, d, 0, 0, dwell)), cfg, host, d, dwell);
  }

  lemma SlowThenQuickGrants(cfg: Settings, d: nat)
    requires IntervalMs(cfg) > 0 && 0 < d <= IntervalMs(cfg) + 1
    ensures var w := Play(Quiet(), cfg, Call(0, "", 999, 0, 0, d));
      && Wins(Quiet(), w, cfg, "", 999, d)
      && Wins(w, Play(w, cfg, Call(1, "", IntervalMs(cfg) + 1 - d, 0, 0, 0)), cfg, "", IntervalMs(cfg) + 1 - d, 0)
  {
    LoneGrant(Quiet(), cfg, 0, "", 999, d);
    var w := Play(Quiet(), cfg, Call(0, "", 999, 0, 0, d));
    assert w.store.hosts[cfg.fold("")] == 999 + IntervalMs(cfg) && w.store.seconds.Keys <= {0};
    LoneGrant(w, cfg, 1, "", IntervalMs(cfg) + 1 - d, 0);
  }

  lemma QuickIsSteady(w: World, cfg: Settings, gap: nat, lag: nat)
    requires 1 !in w.phases && IntervalMs(cfg) > 0 && !Held(w.store, cfg.fold(""), w.clock + gap)
    ensures var quick := Call(1, "", gap, 0, 0, 0); NoZeroRead(w, cfg, quick) && Steady(w, cfg, quick, lag)
  {
    LoneWinner(w, cfg, 1, "", gap, 0);
    SteadySooner(w, cfg, Call(1, "", gap, 0, 0, 0), 0, lag);
  }

  lemma SlowThenQuickIsSteady(cfg: Settings, d: nat)
    requires IntervalMs(cfg) > 0 && 0 < d <= IntervalMs(cfg) + 1
    ensures NoZeroRead(Quiet(), cfg, SlowThenQuick(cfg, d)) && Steady(Quiet(), cfg, SlowThenQuick(cfg, d), d)
  {
    var gap := IntervalMs(cfg) + 1 - d;
    var slow, quick := Call(0, "", 999, 0, 0, d), Call(1, "", gap, 0, 0, 0);
    SlowThenQuickGrants(cfg, d);
    var w := Play(Quiet(), cfg, slow);
    LoneWinner(Quiet(), cfg, 0, "", 999, d);
    QuickIsSteady(w, cfg, gap, d);
    SteadyAppend(Quiet(), cfg, slow, quick, d);
  }

  lemma SlowThenQuickTooClose(cfg: Settings, d: nat)
    requires IntervalMs(cfg) > 0 && 0 < d <= IntervalMs(cfg) + 1
    ensures var evs := SlowThenQuick(cfg, d); var w := Play(Quiet(), cfg, evs);
      && NoZeroRead(Quiet(), cfg, evs) && Steady(Quiet(), cfg, evs, d)
      && |w.granted| == 2 && |w.passes| == 2 && w.granted[0].pass == 0 && w.granted[1].pass == 1
      && SameHost(w.passes[0], w.passes[1], cfg)
      && w.granted[1].at - w.granted[0].at == IntervalMs(cfg) + 1 - d
  {
    SlowThenQuickIsSteady(cfg, d);
    SlowThenQuickGrants(cfg, d);
    PlayAppend(Quiet(), cfg, Call(0, "", 999, 0, 0, d), Call(1, "", IntervalMs(cfg) + 1 - d, 0, 0, 0));
  }
}
