/** The distributed fetch limiter (fetch/politeness.py): two gates in a shared store, used by any
    number of workers whose commands interleave freely. Times are whole milliseconds of one clock. */
module RateLimit {
  import opened Basics

  datatype Counter = Counter(count: nat, expiresAt: nat)

  datatype Store = Store(hosts: map<string, nat>, seconds: map<nat, Counter>)

  /** `fold` lower-cases a host. */
  datatype Settings = Settings(interval: real, budget: int, fold: string -> string)

  /** `Refused`: the store rejects a zero expiry and the call raises. */
  datatype Reply = Wait(seconds: real) | Refused

  // ---- the store's commands ------------------------------------------------

  /** A key lives through the millisecond it expires at. */
  predicate Held(st: Store, key: string, t: nat) {
    key in st.hosts && t <= st.hosts[key]
  }

  /** `SET key NX PX px`. */
  function SetNx(st: Store, key: string, px: nat, t: nat): Store {
    if Held(st, key, t) then st else st.(hosts := st.hosts[key := t + px])
  }

  /** `PTTL`. */
  function Pttl(st: Store, key: string, t: nat): int {
    if Held(st, key, t) then st.hosts[key] - t else -2
  }

  predicate Counting(st: Store, second: nat, t: nat) {
    second in st.seconds && t <= st.seconds[second].expiresAt
  }

  /** `INCR`, and `EXPIRE 2` when the counter is new. */
  function Incr(st: Store, second: nat, t: nat): Store {
    var counter := if Counting(st, second, t) then st.seconds[second].(count := st.seconds[second].count + 1)
      else Counter(1, t + 2000);
    st.(seconds := st.seconds[second := counter])
  }

  // ---- one check -----------------------------------------------------------

  function IntervalMs(cfg: Settings): nat {
    if cfg.interval > 0.0 then (cfg.interval * 1000.0).Floor else 0
  }

  function HostWait(cfg: Settings, ttl: int): real {
    if ttl < 0 then cfg.interval else ttl as real / 1000.0
  }

  function BudgetWait(now: nat): real {
    var wait := 1.0 - (now as real / 1000.0 - (now / 1000) as real);
    if wait > 0.0 then wait else 1.0
  }

  /** `_check_host_interval`. */
  function HostGate(st: Store, cfg: Settings, host: string, setAt: nat, ttlAt: nat): (Store, Reply) {
    var key := cfg.fold(host);
    if cfg.interval <= 0.0 then (st, Wait(0.0))
    else if IntervalMs(cfg) == 0 then (st, Refused)
    else if !Held(st, key, setAt) then (SetNx(st, key, IntervalMs(cfg), setAt), Wait(0.0))
    else (st, Wait(HostWait(cfg, Pttl(st, key, ttlAt))))
  }

  /** `_check_global_budget`. */
  function BudgetGate(st: Store, cfg: Settings, now: nat, incrAt: nat): (Store, Reply) {
    if cfg.budget <= 0 then (st, Wait(0.0))
    else
      var counted := Incr(st, now / 1000, incrAt);
      (counted, Wait(if counted.seconds[now / 1000].count <= cfg.budget then 0.0 else BudgetWait(now)))
  }

  /** `check`: the host gate first, so a throttled host takes no slot of the budget. */
  function Check(st: Store, cfg: Settings, host: string, now: nat, setAt: nat, ttlAt: nat, incrAt: nat): (Store, Reply) {
    var (gated, reply) := HostGate(st, cfg, host, setAt, ttlAt);
    if reply.Refused? || reply.seconds > 0.0 then (gated, reply) else BudgetGate(gated, cfg, now, incrAt)
  }

  /** A caller that loses the slot while it is held is told to wait exactly until it expires; one that
      finds it just gone, for the whole interval. */
  lemma HostWaitEndsAtExpiry(st: Store, cfg: Settings, host: string, setAt: nat, ttlAt: nat)
    requires IntervalMs(cfg) > 0 && Held(st, cfg.fold(host), setAt) && setAt <= ttlAt
    ensures var (store, reply) := HostGate(st, cfg, host, setAt, ttlAt); var expiry := st.hosts[cfg.fold(host)];
      && store == st && reply.Wait?
      && (ttlAt <= expiry ==> ttlAt as real + reply.seconds * 1000.0 == expiry as real)
      && (ttlAt > expiry ==> reply.seconds == cfg.interval)
  {
  }

  /** A caller that wins it goes at once, and the slot is then held for the whole milliseconds of the
      interval. */
  lemma HostSlotIsTaken(st: Store, cfg: Settings, host: string, setAt: nat, ttlAt: nat, t: nat, other: string)
    requires cfg.interval > 0.0 && IntervalMs(cfg) > 0 && !Held(st, cfg.fold(host), setAt)
    ensures var (store, reply) := HostGate(st, cfg, host, setAt, ttlAt);
      && reply == Wait(0.0) && store.seconds == st.seconds
      && (t >= setAt ==> (Held(store, cfg.fold(host), t) <==> t <= setAt + IntervalMs(cfg)))
      && (other != cfg.fold(host) ==> (Held(store, other, t) <==> Held(st, other, t)))
    ensures IntervalMs(cfg) as real <= cfg.interval * 1000.0 < (IntervalMs(cfg) + 1) as real
  {
  }

  /** Every check of the budget counts one call of its second; those within the budget go at once, and the
      others are told to wait for the end of that second. */
  lemma BudgetGateCounts(st: Store, cfg: Settings, now: nat, incrAt: nat, other: nat)
    requires cfg.budget > 0
    ensures var (store, reply) := BudgetGate(st, cfg, now, incrAt); var second := now / 1000;
      var before := if second in st.seconds && incrAt <= st.seconds[second].expiresAt then st.seconds[second].count else 0;
      && second in store.seconds && store.seconds[second].count == before + 1 && store.hosts == st.hosts
      && store.seconds[second].expiresAt ==
           (if before == 0 && !(second in st.seconds && incrAt <= st.seconds[second].expiresAt) then incrAt + 2000
            else st.seconds[second].expiresAt)
      && (other != second ==> Lookup(store.seconds, other) == Lookup(st.seconds, other))
      && reply.Wait? && (before < cfg.budget ==> reply.seconds == 0.0)
      && (before >= cfg.budget ==> now as real + reply.seconds * 1000.0 == 1000.0 * (second + 1) as real)
  {
  }

  /** A gate that is switched off lets everyone through and keeps no record. */
  lemma GatesSwitchedOff(st: Store, cfg: Settings, host: string, now: nat, setAt: nat, ttlAt: nat, incrAt: nat)
    ensures cfg.interval <= 0.0 ==> HostGate(st, cfg, host, setAt, ttlAt) == (st, Wait(0.0))
    ensures cfg.budget <= 0 ==> BudgetGate(st, cfg, now, incrAt) == (st, Wait(0.0))
    ensures 0.0 < cfg.interval < 0.001 ==> HostGate(st, cfg, host, setAt, ttlAt) == (st, Refused)
  {
  }

  // ---- many workers --------------------------------------------------------

  /** Where a worker's call is: the clock read, the host slot lost, or past the host gate. */
  datatype Phase = Ready(now: nat, host: string) | Lost(now: nat, host: string) | Through(now: nat, pass: nat)

  /** A call that got past the host gate, by taking the slot or not. */
  datatype Pass = Pass(host: string, at: nat, slot: bool)

  /** A call that returned 0: its pass, the clock it read and the instant it returned. */
  datatype Grant = Grant(pass: nat, read: nat, at: nat)

  /** `passes` and `granted` are history. */
  datatype World = World(clock: nat, store: Store, phases: map<nat, Phase>, passes: seq<Pass>, granted: seq<Grant>)

  datatype Event = Start(worker: nat, host: string) | TryHost(worker: nat) | ReadTtl(worker: nat) | CountUp(worker: nat)

  function Opened(w: World, worker: nat, now: nat, host: string, slot: bool): World {
    w.(phases := w.phases[worker := Through(now, |w.passes|)], passes := w.passes + [Pass(host, w.clock, slot)])
  }

  function Done(w: World, worker: nat): World {
    w.(phases := w.phases - {worker})
  }

  function Granted(w: World, worker: nat, pass: nat, now: nat): World {
    Done(w.(granted := w.granted + [Grant(pass, now, w.clock)]), worker)
  }

  function TryHostStep(w: World, cfg: Settings, worker: nat, now: nat, host: string): World {
    var key := cfg.fold(host);
    if cfg.interval <= 0.0 then Opened(w, worker, now, host, false)
    else if IntervalMs(cfg) == 0 then Done(w, worker)
    else if Held(w.store, key, w.clock) then w.(phases := w.phases[worker := Lost(now, host)])
    else Opened(w.(store := SetNx(w.store, key, IntervalMs(cfg), w.clock)), worker, now, host, true)
  }

  function CountStep(w: World, cfg: Settings, worker: nat, now: nat, pass: nat): World {
    var second := now / 1000;
    if cfg.budget <= 0 then Granted(w, worker, pass, now)
    else
      var counted := w.(store := Incr(w.store, second, w.clock));
      if counted.store.seconds[second].count <= cfg.budget then Granted(counted, worker, pass, now)
      else Done(counted, worker)
  }

  /** One command of one worker, `after` milliseconds after the previous one; a command its worker
      is not ready for only lets time pass. */
  function Step(before: World, cfg: Settings, after: nat, ev: Event): World {
    var w := before.(clock := before.clock + after);
    var phase := Lookup(w.phases, ev.worker);
    match ev
    case Start(worker, host) => if phase.None? then w.(phases := w.phases[worker := Ready(w.clock, host)]) else w
    case TryHost(worker) =>
      if phase.Some? && phase.value.Ready? then TryHostStep(w, cfg, worker, phase.value.now, phase.value.host) else w
    case ReadTtl(worker) =>
      if phase.Some? && phase.value.Lost? then
        if HostWait(cfg, Pttl(w.store, cfg.fold(phase.value.host), w.clock)) > 0.0 then Done(w, worker)
        else Opened(w, worker, phase.value.now, phase.value.host, false)
      else w
    case CountUp(worker) =>
      if phase.Some? && phase.value.Through? then CountStep(w, cfg, worker, phase.value.now, phase.value.pass) else w
  }

  function Play(w: World, cfg: Settings, evs: seq<(nat, Event)>): World
    decreases evs
  {
    if evs == [] then w else Play(Step(w, cfg, evs[0].0, evs[0].1), cfg, evs[1..])
  }

  function Quiet(): World {
    World(0, Store(map[], map[]), map[], [], [])
  }

  function Call(worker: nat, host: string, d: nat, d1: nat, d2: nat, d3: nat): seq<(nat, Event)> {
    [(d, Start(worker, host)), (d1, TryHost(worker)), (d2, ReadTtl(worker)), (d3, CountUp(worker))]
  }

  /** How a call that gets past the host gate does so. */
  function PassOf(st: Store, cfg: Settings, host: string, setAt: nat, ttlAt: nat): Pass {
    if cfg.interval <= 0.0 then Pass(host, setAt, false)
    else if Held(st, cfg.fold(host), setAt) then Pass(host, ttlAt, false)
    else Pass(host, setAt, true)
  }

  /** From `w` to `end` just one call of `Check` took place: its store, its reply and its pass. */
  predicate IsOneCheck(w: World, end: World, cfg: Settings, host: string, d: nat, d1: nat, d2: nat, d3: nat) {
    var now := w.clock + d;
    var (store, reply) := Check(w.store, cfg, host, now, now + d1, now + d1 + d2, now + d1 + d2 + d3);
    && end.store == store && end.phases == w.phases
    && end.granted == (if reply == Wait(0.0) then w.granted + [Grant(|w.passes|, now, end.clock)] else w.granted)
    && end.clock == now + d1 + d2 + d3
    && (HostGate(w.store, cfg, host, now + d1, now + d1 + d2).1 == Wait(0.0) ==>
          end.passes == w.passes + [PassOf(w.store, cfg, host, now + d1, now + d1 + d2)])
  }

  /** A worker on its own is one call of `Check`. */
  lemma AloneIsCheck(w: World, cfg: Settings, worker: nat, host: string, d: nat, d1: nat, d2: nat, d3: nat)
    requires worker !in w.phases
    ensures IsOneCheck(w, Play(w, cfg, Call(worker, host, d, d1, d2, d3)), cfg, host, d, d1, d2, d3)
  {
    var w3 := Step(Step(Step(w, cfg, d, Start(worker, host)), cfg, d1, TryHost(worker)), cfg, d2, ReadTtl(worker));
    CallSteps(w, cfg, worker, host, d, d1, d2, d3);
    AloneAtTheHost(w, cfg, worker, host, d, d1, d2);
    GatesInOrder(w, w3, cfg, worker, host, d, d1, d2, d3);
  }

  /** From `w` to `end` just the host gate took place, and `worker` is through if it opened. */
  predicate IsOneHostGate(w: World, end: World, cfg: Settings, worker: nat, host: string, d: nat, d1: nat, d2: nat) {
    var now := w.clock + d;
    var (store, reply) := HostGate(w.store, cfg, host, now + d1, now + d1 + d2);
    && end.clock == now + d1 + d2 && end.store == store && end.granted == w.granted
    && end.phases == (if reply == Wait(0.0) then w.phases[worker := Through(now, |w.passes|)] else w.phases)
    && (reply == Wait(0.0) ==> end.passes == w.passes + [PassOf(w.store, cfg, host, now + d1, now + d1 + d2)])
  }

  lemma GatesInOrder(w: World, w3: World, cfg: Settings, worker: nat, host: string, d: nat, d1: nat, d2: nat, d3: nat)
    requires worker !in w.phases && IsOneHostGate(w, w3, cfg, worker, host, d, d1, d2)
    ensures IsOneCheck(w, Step(w3, cfg, d3, CountUp(worker)), cfg, host, d, d1, d2, d3)
  {
    AloneAtTheBudget(w, w3, cfg, worker, d3);
  }

  lemma CallSteps(w: World, cfg: Settings, worker: nat, host: string, d: nat, d1: nat, d2: nat, d3: nat)
    ensures var w1 := Step(w, cfg, d, Start(worker, host));
      var w3 := Step(Step(w1, cfg, d1, TryHost(worker)), cfg, d2, ReadTtl(worker));
      Play(w, cfg, Call(worker, host, d, d1, d2, d3)) == Step(w3, cfg, d3, CountUp(worker))
  {
    var evs := Call(worker, host, d, d1, d2, d3);
    var w1 := Step(w, cfg, d, Start(worker, host));
    var w2 := Step(w1, cfg, d1, TryHost(worker));
    var w3 := Step(w2, cfg, d2, ReadTtl(worker));
    assert evs[1..][1..][1..] == [(d3, CountUp(worker))] && evs[1..][1..][0] == (d2, ReadTtl(worker));
    assert Play(w3, cfg, evs[1..][1..][1..]) == Step(w3, cfg, d3, CountUp(worker));
    assert Play(w2, cfg, evs[1..][1..]) == Play(w3, cfg, evs[1..][1..][1..]);
    assert Play(w1, cfg, evs[1..]) == Play(w2, cfg, evs[1..][1..]);
  }

  lemma AloneAtTheHost(w: World, cfg: Settings, worker: nat, host: string, d: nat, d1: nat, d2: nat)
    requires worker !in w.phases
    ensures var end := Step(Step(Step(w, cfg, d, Start(worker, host)), cfg, d1, TryHost(worker)), cfg, d2, ReadTtl(worker));
      IsOneHostGate(w, end, cfg, worker, host, d, d1, d2)
  {
    var w1 := Step(w, cfg, d, Start(worker, host));
    assert w1 == w.(clock := w.clock + d, phases := w.phases[worker := Ready(w.clock + d, host)]);
    var w2 := Step(w1, cfg, d1, TryHost(worker));
    var w3 := Step(w2, cfg, d2, ReadTtl(worker));
    var reply := HostGate(w.store, cfg, host, w.clock + d + d1, w.clock + d + d1 + d2).1;
    if reply == Wait(0.0) {
      assert w3.phases == w.phases[worker := Through(w.clock + d, |w.passes|)];
    } else {
      assert w3.phases == w.phases;
    }
  }

  lemma AloneAtTheBudget(w: World, w3: World, cfg: Settings, worker: nat, d3: nat)
    requires worker !in w.phases && (w3.phases == w.phases || (worker in w3.phases && w3.phases[worker].Through? &&
      w3.phases == w.phases[worker := w3.phases[worker]]))
    ensures var end := Step(w3, cfg, d3, CountUp(worker)); end.phases == w.phases && end.clock == w3.clock + d3
    ensures worker !in w3.phases ==> Step(w3, cfg, d3, CountUp(worker)) == w3.(clock := w3.clock + d3)
    ensures worker in w3.phases ==> var end := Step(w3, cfg, d3, CountUp(worker));
      var (store, reply) := BudgetGate(w3.store, cfg, w3.phases[worker].now, w3.clock + d3);
      && end.store == store && end.passes == w3.passes
      && end.granted == if reply == Wait(0.0)
           then w3.granted + [Grant(w3.phases[worker].pass, w3.phases[worker].now, end.clock)] else w3.granted
  {
  }

  lemma {:induction false} PlayAppend(w: World, cfg: Settings, a: seq<(nat, Event)>, b: seq<(nat, Event)>)
    ensures Play(w, cfg, a + b) == Play(Play(w, cfg, a), cfg, b)
    decreases a
  {
    if a == [] {
      assert a + b == b;
    } else {
      assert (a + b)[1..] == a[1..] + b;
      PlayAppend(Step(w, cfg, a[0].0, a[0].1), cfg, a[1..], b);
    }
  }

  // ---- the calls -----------------------------------------------------------

  /** The shared store, and the functions of politeness.py on it. */
  class Limiter {
    var hosts: map<string, nat>
    var seconds: map<nat, Counter>

    function Contents(): Store
      reads this
    {
      Store(hosts, seconds)
    }

    /** `_check_host_interval`. */
    method CheckHostInterval(cfg: Settings, host: string, setAt: nat, ttlAt: nat) returns (reply: Reply)
      modifies this`hosts
      ensures (Contents(), reply) == HostGate(old(Contents()), cfg, host, setAt, ttlAt)
    {
      if cfg.interval <= 0.0 {
        return Wait(0.0);
      }
      var key := cfg.fold(host);
      var intervalMs := (cfg.interval * 1000.0).Floor;
      if intervalMs == 0 {
        return Refused;
      }
      var won := !(key in hosts && setAt <= hosts[key]);
      if won {
        hosts := hosts[key := setAt + intervalMs];
        return Wait(0.0);
      }
      var ttlMs := Pttl(Contents(), key, ttlAt);
      return Wait(if ttlMs < 0 then cfg.interval else ttlMs as real / 1000.0);
    }

    /** `_check_global_budget`. */
    method CheckGlobalBudget(cfg: Settings, now: nat, incrAt: nat) returns (reply: Reply)
      modifies this`seconds
      ensures (Contents(), reply) == BudgetGate(old(Contents()), cfg, now, incrAt)
    {
      if cfg.budget <= 0 {
        return Wait(0.0);
      }
      var second := now / 1000;
      var count := 1;
      var expiresAt := incrAt + 2000;
      if second in seconds && incrAt <= seconds[second].expiresAt {
        count := seconds[second].count + 1;
        expiresAt := seconds[second].expiresAt;
      }
      seconds := seconds[second := Counter(count, expiresAt)];
      return Wait(if count <= cfg.budget then 0.0 else BudgetWait(now));
    }

    /** `check`. */
    method CheckHost(cfg: Settings, host: string, now: nat, setAt: nat, ttlAt: nat, incrAt: nat) returns (reply: Reply)
      modifies this
      ensures (Contents(), reply) == Check(old(Contents()), cfg, host, now, setAt, ttlAt, incrAt)
    {
      reply := CheckHostInterval(cfg, host, setAt, ttlAt);
      if reply.Refused? || reply.seconds > 0.0 {
        return;
      }
      reply := CheckGlobalBudget(cfg, now, incrAt);
    }
  }
}
