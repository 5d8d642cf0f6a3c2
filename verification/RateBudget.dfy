/** How many fetches the global budget lets through in one wall second (fetch/politeness.py). */
module RateBudget {
  import opened Basics
  import opened RateLimit

  // ---- counting grants -----------------------------------------------------

  /** Grants returned at an instant in `[from, to)` by calls that read the clock in second `sec`. */
  function Count(granted: seq<Grant>, sec: nat, from: int, to: int): nat {
    if granted == [] then 0
    else
      var last := granted[|granted| - 1];
      Count(granted[..|granted| - 1], sec, from, to) +
      if last.read / 1000 == sec && from <= last.at < to then 1 else 0
  }

  /** Grants returned in one wall second, whenever their calls read the clock. */
  function GrantedIn(granted: seq<Grant>, second: nat): nat {
    if granted == [] then 0
    else
      GrantedIn(granted[..|granted| - 1], second) + if granted[|granted| - 1].at / 1000 == second then 1 else 0
  }

  lemma CountAppend(granted: seq<Grant>, g: Grant, sec: nat, from: int, to: int)
    ensures Count(granted + [g], sec, from, to) ==
      Count(granted, sec, from, to) + if g.read / 1000 == sec && from <= g.at < to then 1 else 0
  {
    assert (granted + [g])[..|granted|] == granted;
  }

  lemma {:induction false} CountSplit(granted: seq<Grant>, sec: nat, from: int, mid: int, to: int)
    requires from <= mid <= to
    ensures Count(granted, sec, from, to) == Count(granted, sec, from, mid) + Count(granted, sec, mid, to)
  {
    if granted != [] {
      CountSplit(granted[..|granted| - 1], sec, from, mid, to);
    }
  }

  lemma {:induction false} CountWithin(granted: seq<Grant>, sec: nat, from: int, to: int, wideFrom: int, wideTo: int)
    requires forall i | 0 <= i < |granted| && granted[i].read / 1000 == sec && from <= granted[i].at < to ::
      wideFrom <= granted[i].at < wideTo
    ensures Count(granted, sec, from, to) <= Count(granted, sec, wideFrom, wideTo)
  {
    if granted != [] {
      CountWithin(granted[..|granted| - 1], sec, from, to, wideFrom, wideTo);
    }
  }

  /** A sum over `n` seconds from `sec` on. */
  function Sum(granted: seq<Grant>, sec: nat, n: nat, from: int, to: int): nat
    decreases n
  {
    if n == 0 then 0 else Count(granted, sec, from, to) + Sum(granted, sec + 1, n - 1, from, to)
  }

  lemma {:induction false} SumAppend(granted: seq<Grant>, g: Grant, sec: nat, n: nat, from: int, to: int)
    ensures Sum(granted + [g], sec, n, from, to) ==
      Sum(granted, sec, n, from, to) + if sec <= g.read / 1000 < sec + n && from <= g.at < to then 1 else 0
    decreases n
  {
    if n > 0 {
      CountAppend(granted, g, sec, from, to);
      SumAppend(granted, g, sec + 1, n - 1, from, to);
    }
  }

  /** The grants of a second are those of the seconds they can carry. */
  lemma {:induction false} GrantedInIsSum(granted: seq<Grant>, second: nat, sec: nat, n: nat)
    requires forall i | 0 <= i < |granted| && granted[i].at / 1000 == second :: sec <= granted[i].read / 1000 < sec + n
    ensures GrantedIn(granted, second) <= Sum(granted, sec, n, 1000 * second, 1000 * second + 1000)
  {
    if granted != [] {
      var front, last := granted[..|granted| - 1], granted[|granted| - 1];
      assert granted == front + [last];
      GrantedInIsSum(front, second, sec, n);
      SumAppend(front, last, sec, n, 1000 * second, 1000 * second + 1000);
    }
  }

  lemma {:induction false} SumBound(granted: seq<Grant>, sec: nat, n: nat, from: int, to: int, each: nat)
    requires forall k | sec <= k < sec + n :: Count(granted, k, from, to) <= each
    ensures Sum(granted, sec, n, from, to) <= n * each
    decreases n
  {
    if n > 0 {
      SumBound(granted, sec + 1, n - 1, from, to, each);
      assert n * each == each + (n - 1) * each;
    }
  }

  // ---- promptness ----------------------------------------------------------

  /** Every counter increment comes at most `lag` milliseconds after its worker read the clock. */
  predicate Prompt(w: World, cfg: Settings, evs: seq<(nat, Event)>, lag: nat)
    decreases evs
  {
    evs == [] ||
    var (after, ev) := evs[0];
    && (ev.CountUp? && ev.worker in w.phases && w.phases[ev.worker].Through? ==>
          w.clock + after <= w.phases[ev.worker].now + lag)
    && Prompt(Step(w, cfg, after, ev), cfg, evs[1..], lag)
  }

  lemma {:induction false} PromptSooner(w: World, cfg: Settings, evs: seq<(nat, Event)>, lag: nat, longer: nat)
    requires Prompt(w, cfg, evs, lag) && lag <= longer
    ensures Prompt(w, cfg, evs, longer)
    decreases evs
  {
    if evs != [] {
      PromptSooner(Step(w, cfg, evs[0].0, evs[0].1), cfg, evs[1..], lag, longer);
    }
  }

  lemma {:induction false} PromptAppend(w: World, cfg: Settings, a: seq<(nat, Event)>, b: seq<(nat, Event)>, lag: nat)
    requires Prompt(w, cfg, a, lag) && Prompt(Play(w, cfg, a), cfg, b, lag)
    ensures Prompt(w, cfg, a + b, lag)
    decreases a
  {
    if a == [] {
      assert a + b == b;
    } else {
      assert (a + b)[1..] == a[1..] + b;
      PromptAppend(Step(w, cfg, a[0].0, a[0].1), cfg, a[1..], b, lag);
    }
  }

  predicate CountsUp(w: World, ev: Event) {
    ev.CountUp? && ev.worker in w.phases && w.phases[ev.worker].Through?
  }

  /** A step that is not a call's increment grants nothing and leaves the counters alone. */
  lemma {:induction false} OtherStep(w: World, cfg: Settings, after: nat, ev: Event)
    requires !CountsUp(w, ev)
    ensures var v := Step(w, cfg, after, ev);
      && v.granted == w.granted && v.store.seconds == w.store.seconds && v.clock == w.clock + after
      && forall k | k in v.phases :: v.phases[k].now == v.clock || (k in w.phases && v.phases[k].now == w.phases[k].now)
  {
  }

  ghost predicate Clocked(w: World, lag: nat) {
    && (forall k | k in w.phases :: w.phases[k].now <= w.clock)
    && (forall i | 0 <= i < |w.granted| :: w.granted[i].read <= w.granted[i].at <= w.granted[i].read + lag && w.granted[i].at <= w.clock)
  }

  lemma {:induction false} PlayClocked(w: World, cfg: Settings, evs: seq<(nat, Event)>, lag: nat)
    requires Clocked(w, lag) && Prompt(w, cfg, evs, lag)
    ensures Clocked(Play(w, cfg, evs), lag)
    decreases evs
  {
    if evs != [] {
      var (after, ev) := evs[0];
      var v := Step(w, cfg, after, ev);
      assert Clocked(v, lag) by {
        if CountsUp(w, ev) {
          assert v.granted == w.granted || v.granted == w.granted + [Grant(w.phases[ev.worker].pass, w.phases[ev.worker].now, v.clock)];
        } else {
          OtherStep(w, cfg, after, ev);
        }
      }
      PlayClocked(v, cfg, evs[1..], lag);
    }
  }

  // ---- what one counter lets through ---------------------------------------

  function Born(c: Counter): int {
    c.expiresAt - 2000
  }

  /** The grants labelled `k`: as many as their counter's life allows, and no more than the budget in
      the second before it was born. */
  ghost predicate LabelOk(w: World, cfg: Settings, k: nat) {
    if k !in w.store.seconds then Count(w.granted, k, 0, w.clock + 1) == 0
    else
      var c := w.store.seconds[k];
      && 0 <= Born(c) <= w.clock
      && Count(w.granted, k, Born(c), w.clock + 1) <= c.count && Count(w.granted, k, Born(c), w.clock + 1) <= cfg.budget
      && Count(w.granted, k, c.expiresAt + 1, w.clock + 1) == 0
      && Count(w.granted, k, Born(c) - 1000, Born(c)) <= cfg.budget
  }

  /** The grants of any stretch of a second. */
  function Window(granted: seq<Grant>, k: nat, a: int): nat {
    Count(granted, k, a, a + 1000)
  }

  ghost predicate WindowsOk(granted: seq<Grant>, cfg: Settings, k: nat) {
    forall a: int :: Window(granted, k, a) <= 2 * cfg.budget
  }

  ghost predicate Counted(w: World, cfg: Settings) {
    && (forall i | 0 <= i < |w.granted| :: w.granted[i].at <= w.clock)
    && (forall k: nat :: LabelOk(w, cfg, k) && WindowsOk(w.granted, cfg, k))
  }

  /** Time passes without a grant. */
  lemma LaterOk(granted: seq<Grant>, k: nat, from: int, clock: nat, later: nat)
    requires clock <= later && forall i | 0 <= i < |granted| :: granted[i].at <= clock
    ensures Count(granted, k, from, later + 1) == Count(granted, k, from, clock + 1)
  {
    CountWithin(granted, k, from, later + 1, from, clock + 1);
    CountWithin(granted, k, from, clock + 1, from, later + 1);
  }

  lemma {:induction false} TimePasses(w: World, v: World, cfg: Settings, k: nat)
    requires LabelOk(w, cfg, k) && (forall i | 0 <= i < |w.granted| :: w.granted[i].at <= w.clock)
    requires v.granted == w.granted && v.store.seconds == w.store.seconds && w.clock <= v.clock
    ensures LabelOk(v, cfg, k)
  {
    LaterOk(w.granted, k, 0, w.clock, v.clock);
    if k in w.store.seconds {
      LaterOk(w.granted, k, Born(w.store.seconds[k]), w.clock, v.clock);
      LaterOk(w.granted, k, w.store.seconds[k].expiresAt + 1, w.clock, v.clock);
    }
  }

  /** The counter of second `k` is counted up at `w.clock`, and the call is granted if `g` is. */
  lemma {:induction false} Incremented(w: World, cfg: Settings, k: nat, g: Grant)
    requires LabelOk(w, cfg, k) && WindowsOk(w.granted, cfg, k) && cfg.budget > 0
    requires forall i | 0 <= i < |w.granted| :: w.granted[i].at <= w.clock
    requires g.read / 1000 == k && g.at == w.clock
    ensures var v := w.(store := Incr(w.store, k, w.clock)); LabelOk(v, cfg, k)
    ensures var v := w.(store := Incr(w.store, k, w.clock), granted := w.granted + [g]);
      v.store.seconds[k].count <= cfg.budget ==> LabelOk(v, cfg, k) && WindowsOk(v.granted, cfg, k)
  {
    if Counting(w.store, k, w.clock) {
      CountedOn(w, cfg, k, g);
    } else {
      CountedAnew(w, cfg, k, g);
    }
  }

  /** A counter that is alive. */
  lemma {:induction false} CountedOn(w: World, cfg: Settings, k: nat, g: Grant)
    requires LabelOk(w, cfg, k) && WindowsOk(w.granted, cfg, k) && Counting(w.store, k, w.clock)
    requires g.read / 1000 == k && g.at == w.clock
    requires forall i | 0 <= i < |w.granted| :: w.granted[i].at <= w.clock
    ensures var v := w.(store := Incr(w.store, k, w.clock)); LabelOk(v, cfg, k)
    ensures var v := w.(store := Incr(w.store, k, w.clock), granted := w.granted + [g]);
      v.store.seconds[k].count <= cfg.budget ==> LabelOk(v, cfg, k) && WindowsOk(v.granted, cfg, k)
  {
    var c := w.store.seconds[k];
    CountAppend(w.granted, g, k, Born(c), w.clock + 1);
    CountAppend(w.granted, g, k, c.expiresAt + 1, w.clock + 1);
    CountAppend(w.granted, g, k, Born(c) - 1000, Born(c));
    if c.count + 1 <= cfg.budget {
      WindowsGrow(w.granted, cfg, k, g, Born(c));
    }
  }

  lemma {:induction false} WindowsGrow(granted: seq<Grant>, cfg: Settings, k: nat, g: Grant, u: int)
    requires WindowsOk(granted, cfg, k) && g.read / 1000 == k && u <= g.at
    requires forall i | 0 <= i < |granted| :: granted[i].at <= g.at
    requires Count(granted, k, u - 1000, u) <= cfg.budget && Count(granted, k, u, g.at + 1) + 1 <= cfg.budget
    ensures WindowsOk(granted + [g], cfg, k)
  {
    forall a: int ensures Window(granted + [g], k, a) <= 2 * cfg.budget {
      assert Window(granted, k, a) <= 2 * cfg.budget;
      CountAppend(granted, g, k, a, a + 1000);
      if a <= g.at < a + 1000 {
        WindowSplits(granted, k, a, u, g.at);
      }
    }
  }

  /** A window reaching back over a counter's birth. */
  lemma {:induction false} WindowSplits(granted: seq<Grant>, k: nat, a: int, u: int, t: nat)
    requires a <= t < a + 1000 && u <= t && forall i | 0 <= i < |granted| :: granted[i].at <= t
    ensures Count(granted, k, a, a + 1000) <= Count(granted, k, u - 1000, u) + Count(granted, k, u, t + 1)
  {
    CountWithin(granted, k, a, a + 1000, u - 1000, t + 1);
    CountSplit(granted, k, u - 1000, u, t + 1);
  }

  /** A counter that is new, or expired: its former life ended a second or more before. */
  lemma {:induction false} CountedAnew(w: World, cfg: Settings, k: nat, g: Grant)
    requires LabelOk(w, cfg, k) && WindowsOk(w.granted, cfg, k) && !Counting(w.store, k, w.clock) && cfg.budget > 0
    requires g.read / 1000 == k && g.at == w.clock
    requires forall i | 0 <= i < |w.granted| :: w.granted[i].at <= w.clock
    ensures var v := w.(store := Incr(w.store, k, w.clock)); LabelOk(v, cfg, k)
    ensures var v := w.(store := Incr(w.store, k, w.clock), granted := w.granted + [g]);
      v.store.seconds[k].count <= cfg.budget ==> LabelOk(v, cfg, k) && WindowsOk(v.granted, cfg, k)
  {
    var t: int := w.clock;
    BeforeBirth(w, cfg, k);
    CountAppend(w.granted, g, k, t, t + 1);
    CountAppend(w.granted, g, k, t + 2001, t + 1);
    CountWithin(w.granted, k, t + 2001, t + 1, t, t + 1);
    CountAppend(w.granted, g, k, t - 1000, t);
    WindowsGrow(w.granted, cfg, k, g, t);
  }

  lemma {:induction false} BeforeBirth(w: World, cfg: Settings, k: nat)
    requires LabelOk(w, cfg, k) && !Counting(w.store, k, w.clock) && cfg.budget > 0
    requires forall i | 0 <= i < |w.granted| :: w.granted[i].at <= w.clock
    ensures Count(w.granted, k, w.clock, w.clock + 1) == 0 && Count(w.granted, k, w.clock - 1000, w.clock) <= cfg.budget
  {
    var t: int := w.clock;
    if k in w.store.seconds {
      var c := w.store.seconds[k];
      CountWithin(w.granted, k, t, t + 1, c.expiresAt + 1, t + 1);
      CountWithin(w.granted, k, t - 1000, t, Born(c), t + 1);
    } else {
      CountWithin(w.granted, k, t, t + 1, 0, t + 1);
      CountWithin(w.granted, k, t - 1000, t, 0, t + 1);
    }
  }

  lemma {:induction false} OtherLabel(w: World, v: World, cfg: Settings, k: nat, g: Grant)
    requires LabelOk(w, cfg, k) && WindowsOk(w.granted, cfg, k) && g.read / 1000 != k && v.clock == w.clock
    requires v.granted == w.granted || v.granted == w.granted + [g]
    requires Lookup(v.store.seconds, k) == Lookup(w.store.seconds, k)
    ensures LabelOk(v, cfg, k) && WindowsOk(v.granted, cfg, k)
  {
    forall from: int, to: int ensures Count(v.granted, k, from, to) == Count(w.granted, k, from, to) {
      CountAppend(w.granted, g, k, from, to);
    }
    forall a: int ensures Window(v.granted, k, a) <= 2 * cfg.budget {
      assert Window(w.granted, k, a) <= 2 * cfg.budget;
    }
  }

  lemma {:induction false} CountStepCounted(w: World, cfg: Settings, worker: nat)
    requires Counted(w, cfg) && cfg.budget > 0 && worker in w.phases && w.phases[worker].Through?
    ensures Counted(CountStep(w, cfg, worker, w.phases[worker].now, w.phases[worker].pass), cfg)
  {
    var now := w.phases[worker].now;
    var g := Grant(w.phases[worker].pass, now, w.clock);
    var v := CountStep(w, cfg, worker, now, g.pass);
    forall k: nat ensures LabelOk(v, cfg, k) && WindowsOk(v.granted, cfg, k) {
      assert LabelOk(w, cfg, k) && WindowsOk(w.granted, cfg, k);
      if k == now / 1000 {
        Incremented(w, cfg, k, g);
      } else {
        OtherLabel(w, v, cfg, k, g);
      }
    }
  }

  lemma {:induction false} PlayCounted(w: World, cfg: Settings, evs: seq<(nat, Event)>)
    requires Counted(w, cfg) && cfg.budget > 0
    ensures Counted(Play(w, cfg, evs), cfg)
    decreases evs
  {
    if evs != [] {
      var (after, ev) := evs[0];
      var v := Step(w, cfg, after, ev);
      var later := w.(clock := w.clock + after);
      forall k: nat ensures LabelOk(later, cfg, k) {
        assert LabelOk(w, cfg, k);
        TimePasses(w, later, cfg, k);
      }
      if CountsUp(w, ev) {
        assert forall k: nat :: WindowsOk(later.granted, cfg, k) by {
          forall k: nat ensures WindowsOk(later.granted, cfg, k) {
            assert LabelOk(w, cfg, k) && WindowsOk(w.granted, cfg, k);
          }
        }
        CountStepCounted(later, cfg, ev.worker);
      } else {
        OtherStep(w, cfg, after, ev);
        forall k: nat ensures LabelOk(v, cfg, k) && WindowsOk(v.granted, cfg, k) {
          assert LabelOk(w, cfg, k) && WindowsOk(w.granted, cfg, k);
          TimePasses(w, v, cfg, k);
        }
      }
      PlayCounted(v, cfg, evs[1..]);
    }
  }

  // ---- counters that are not outlived --------------------------------------

  /** Grants of calls that read the clock in one second. */
  function ReadIn(granted: seq<Grant>, sec: nat): nat {
    if granted == [] then 0
    else
      ReadIn(granted[..|granted| - 1], sec) + if granted[|granted| - 1].read / 1000 == sec then 1 else 0
  }

  lemma {:induction false} CountIsReadIn(granted: seq<Grant>, sec: nat, from: int, to: int)
    ensures Count(granted, sec, from, to) <= ReadIn(granted, sec)
  {
    if granted != [] {
      CountIsReadIn(granted[..|granted| - 1], sec, from, to);
    }
  }

  function Tally(st: Store, sec: nat): nat {
    if sec in st.seconds then st.seconds[sec].count else 0
  }

  ghost predicate Alive(w: World, cfg: Settings) {
    && (forall k | k in w.phases :: w.phases[k].now <= w.clock)
    && (forall sec | sec in w.store.seconds :: w.store.seconds[sec].expiresAt >= 1000 * sec + 2000)
    && (forall sec: nat :: ReadIn(w.granted, sec) <= Tally(w.store, sec) && ReadIn(w.granted, sec) <= cfg.budget)
  }

  lemma {:induction false} CountAlive(w: World, cfg: Settings, worker: nat)
    requires Alive(w, cfg) && cfg.budget > 0 && worker in w.phases && w.phases[worker].Through?
    requires w.clock <= w.phases[worker].now + 1001
    ensures Alive(CountStep(w, cfg, worker, w.phases[worker].now, w.phases[worker].pass), cfg)
  {
    var now := w.phases[worker].now;
    var sec := now / 1000;
    var next := CountStep(w, cfg, worker, now, w.phases[worker].pass);
    assert sec in w.store.seconds ==> Counting(w.store, sec, w.clock);
    assert Tally(next.store, sec) == Tally(w.store, sec) + 1;
    if next.granted != w.granted {
      assert next.granted[..|next.granted| - 1] == w.granted;
    }
    forall other: nat ensures ReadIn(next.granted, other) <= Tally(next.store, other) && ReadIn(next.granted, other) <= cfg.budget {
      assert ReadIn(w.granted, other) <= Tally(w.store, other) && ReadIn(w.granted, other) <= cfg.budget;
    }
  }

  lemma {:induction false} OtherAlive(w: World, cfg: Settings, after: nat, ev: Event)
    requires Alive(w, cfg) && !CountsUp(w, ev)
    ensures Alive(Step(w, cfg, after, ev), cfg)
  {
    OtherStep(w, cfg, after, ev);
  }

  lemma {:induction false} PlayAlive(w: World, cfg: Settings, evs: seq<(nat, Event)>)
    requires Alive(w, cfg) && cfg.budget > 0 && Prompt(w, cfg, evs, 1001)
    ensures Alive(Play(w, cfg, evs), cfg)
    decreases evs
  {
    if evs != [] {
      var (after, ev) := evs[0];
      if CountsUp(w, ev) {
        CountAlive(w.(clock := w.clock + after), cfg, ev.worker);
      } else {
        OtherAlive(w, cfg, after, ev);
      }
      PlayAlive(Step(w, cfg, after, ev), cfg, evs[1..]);
    }
  }

  /** While increments lag by at most 1001 ms no counter expires under one: the calls that read the
      clock in one second are granted no more often than the budget. */
  lemma CounterOutlivesItsCalls(cfg: Settings, evs: seq<(nat, Event)>, lag: nat, sec: nat)
    requires cfg.budget > 0 && lag <= 1001 && Prompt(Quiet(), cfg, evs, lag)
    ensures ReadIn(Play(Quiet(), cfg, evs).granted, sec) <= cfg.budget
  {
    PromptSooner(Quiet(), cfg, evs, lag, 1001);
    PlayAlive(Quiet(), cfg, evs);
  }

  // ---- wall seconds --------------------------------------------------------

  /** The seconds a call may have read its clock in, given that it returned in one second. */
  function Reach(lag: nat): nat {
    (lag + 999) / 1000 + 1
  }

  /** No wall second sees more grants than the budget for each second their calls may have read, or
      twice that when increments lag so far that a counter can be outlived once. */
  lemma BudgetBound(cfg: Settings, evs: seq<(nat, Event)>, lag: nat, second: nat)
    requires cfg.budget > 0 && Prompt(Quiet(), cfg, evs, lag)
    ensures GrantedIn(Play(Quiet(), cfg, evs).granted, second) <=
      Reach(lag) * if lag <= 1001 then cfg.budget else 2 * cfg.budget
  {
    var granted := Play(Quiet(), cfg, evs).granted;
    var from := 1000 * second;
    var each: nat := if lag <= 1001 then cfg.budget else 2 * cfg.budget;
    var back := (lag + 999) / 1000;
    var first: nat := if back <= second then second - back else 0;
    PlayClocked(Quiet(), cfg, evs, lag);
    forall i | 0 <= i < |granted| && granted[i].at / 1000 == second ensures first <= granted[i].read / 1000 < first + Reach(lag) {
      ReadWithinReach(granted[i].read, granted[i].at, lag);
    }
    GrantedInIsSum(granted, second, first, Reach(lag));
    var to := from + 1000;
    forall k | first <= k < first + Reach(lag) ensures Count(granted, k, from, to) <= each {
      OneLabel(cfg, evs, lag, k, from);
    }
    SumBound(granted, first, Reach(lag), from, to, each);
  }

  lemma ReadWithinReach(read: nat, at: nat, lag: nat)
    requires read <= at <= read + lag
    ensures read / 1000 <= at / 1000 <= read / 1000 + (lag + 999) / 1000
  {
  }

  lemma OneLabel(cfg: Settings, evs: seq<(nat, Event)>, lag: nat, k: nat, from: int)
    requires cfg.budget > 0 && Prompt(Quiet(), cfg, evs, lag)
    ensures Count(Play(Quiet(), cfg, evs).granted, k, from, from + 1000) <= if lag <= 1001 then cfg.budget else 2 * cfg.budget
  {
    var granted := Play(Quiet(), cfg, evs).granted;
    if lag <= 1001 {
      CounterOutlivesItsCalls(cfg, evs, lag, k);
      CountIsReadIn(granted, k, from, from + 1000);
    } else {
      PlayCounted(Quiet(), cfg, evs);
      assert LabelOk(Play(Quiet(), cfg, evs), cfg, k) && WindowsOk(granted, cfg, k);
      assert Window(granted, k, from) <= 2 * cfg.budget;
    }
  }

  /** Every increment falls in the second its worker read. */
  predicate SameSecond(w: World, cfg: Settings, evs: seq<(nat, Event)>)
    decreases evs
  {
    evs == [] ||
    var (after, ev) := evs[0];
    && (CountsUp(w, ev) ==> (w.clock + after) / 1000 == w.phases[ev.worker].now / 1000)
    && SameSecond(Step(w, cfg, after, ev), cfg, evs[1..])
  }

  ghost predicate InStep(w: World) {
    && (forall k | k in w.phases :: w.phases[k].now <= w.clock)
    && (forall i | 0 <= i < |w.granted| :: w.granted[i].at / 1000 == w.granted[i].read / 1000)
  }

  lemma {:induction false} PlayInStep(w: World, cfg: Settings, evs: seq<(nat, Event)>)
    requires InStep(w) && SameSecond(w, cfg, evs)
    ensures InStep(Play(w, cfg, evs)) && Prompt(w, cfg, evs, 999)
    decreases evs
  {
    if evs != [] {
      var (after, ev) := evs[0];
      var v := Step(w, cfg, after, ev);
      assert InStep(v) by {
        if CountsUp(w, ev) {
          assert v.granted == w.granted || v.granted == w.granted + [Grant(w.phases[ev.worker].pass, w.phases[ev.worker].now, v.clock)];
        } else {
          OtherStep(w, cfg, after, ev);
        }
      }
      PlayInStep(v, cfg, evs[1..]);
    }
  }

  lemma {:induction false} InStepCounts(granted: seq<Grant>, second: nat)
    requires forall i | 0 <= i < |granted| :: granted[i].at / 1000 == granted[i].read / 1000
    ensures GrantedIn(granted, second) == ReadIn(granted, second)
  {
    if granted != [] {
      InStepCounts(granted[..|granted| - 1], second);
    }
  }

  /** If every increment falls in the second its worker read, no wall second sees more grants than
      the budget. */
  lemma SameSecondKeepsBudget(cfg: Settings, evs: seq<(nat, Event)>, second: nat)
    requires cfg.budget > 0 && SameSecond(Quiet(), cfg, evs)
    ensures GrantedIn(Play(Quiet(), cfg, evs).granted, second) <= cfg.budget
  {
    PlayInStep(Quiet(), cfg, evs);
    InStepCounts(Play(Quiet(), cfg, evs).granted, second);
    CounterOutlivesItsCalls(cfg, evs, 999, second);
  }

  // ---- bursts --------------------------------------------------------------

  /** The host gate opens at all: it is off, or its interval is not below a millisecond. */
  predicate GateOpens(cfg: Settings) {
    cfg.interval <= 0.0 || IntervalMs(cfg) > 0
  }

  /** Distinct hosts that lower-casing leaves alone. */
  function Letters(n: nat): (host: string)
    ensures |host| == n
  {
    seq(n, _ => 'a')
  }

  ghost predicate KeepsLetters(cfg: Settings) {
    forall n: nat :: cfg.fold(Letters(n)) == Letters(n)
  }

  predicate HostsUpTo(st: Store, n: nat) {
    forall key | key in st.hosts :: |key| <= n
  }

  /** Where one call for the host `Letters(n)` leaves the world, if no one else has used that host. */
  predicate Called(w: World, end: World, cfg: Settings, n: nat, now: nat, at: nat) {
    && end.clock == at && end.phases == w.phases && HostsUpTo(end.store, n)
    && end.store.seconds == Incr(w.store, now / 1000, at).seconds
    && (end.store.seconds[now / 1000].count <= cfg.budget ==> end.granted == w.granted + [Grant(|w.passes|, now, at)])
  }

  lemma {:induction false} QuickCall(w: World, cfg: Settings, worker: nat, n: nat, d: nat, dwell: nat)
    requires worker !in w.phases && GateOpens(cfg) && KeepsLetters(cfg) && HostsUpTo(w.store, n) && cfg.budget > 0
    ensures Called(w, Play(w, cfg, Call(worker, Letters(n + 1), d, 0, 0, dwell)), cfg, n + 1, w.clock + d, w.clock + d + dwell)
  {
    var host := Letters(n + 1);
    assert cfg.fold(host) == host;
    AloneIsCheck(w, cfg, worker, host, d, 0, 0, dwell);
    assert !Held(w.store, host, w.clock + d);
  }

  function Burst(n: nat, worker: nat, base: nat): seq<(nat, Event)> {
    if n == 0 then [] else Burst(n - 1, worker, base) + Call(worker, Letters(base + n), 0, 0, 0, 0)
  }

  /** Where a burst of `n` calls leaves the world. */
  ghost predicate AfterBurst(w: World, end: World, n: nat, base: nat) {
    var second := w.clock / 1000;
    && end.clock == w.clock && end.phases == w.phases && HostsUpTo(end.store, base + n)
    && end.store.seconds == (if n == 0 then w.store.seconds else w.store.seconds[second := Counter(n, w.clock + 2000)])
    && GrantedIn(end.granted, second) == GrantedIn(w.granted, second) + n
    && ReadIn(end.granted, second) == ReadIn(w.granted, second) + n
  }

  ghost predicate CanBurst(w: World, cfg: Settings, worker: nat, base: nat) {
    && worker !in w.phases && GateOpens(cfg) && KeepsLetters(cfg) && HostsUpTo(w.store, base)
    && w.clock / 1000 !in w.store.seconds
  }

  lemma GrantAppend(granted: seq<Grant>, g: Grant, second: nat)
    requires g.read / 1000 == g.at / 1000 == second
    ensures GrantedIn(granted + [g], second) == GrantedIn(granted, second) + 1
    ensures ReadIn(granted + [g], second) == ReadIn(granted, second) + 1
  {
    assert (granted + [g])[..|granted|] == granted;
  }

  lemma {:induction false} CountedUp(st: Store, second: nat, t: nat, n: nat)
    requires if n == 0 then second !in st.seconds else Lookup(st.seconds, second) == Some(Counter(n, t + 2000))
    ensures Incr(st, second, t).seconds == st.seconds[second := Counter(n + 1, t + 2000)]
  {
  }

  lemma {:induction false} BurstGrows(w: World, v: World, end: World, cfg: Settings, n: nat, base: nat)
    requires n + 1 <= cfg.budget && w.clock / 1000 !in w.store.seconds && AfterBurst(w, v, n, base)
    requires Called(v, end, cfg, base + n + 1, w.clock, w.clock)
    ensures AfterBurst(w, end, n + 1, base)
  {
    var (t, second) := (w.clock, w.clock / 1000);
    CountedUp(v.store, second, t, n);
    assert end.granted == v.granted + [Grant(|v.passes|, t, t)];
    GrantAppend(v.granted, Grant(|v.passes|, t, t), second);
  }

  function Bursted(w: World, cfg: Settings, n: nat, worker: nat, base: nat): World {
    if n == 0 then w
    else Play(Bursted(w, cfg, n - 1, worker, base), cfg, Call(worker, Letters(base + n), 0, 0, 0, 0))
  }

  lemma {:induction false} BurstPlays(w: World, cfg: Settings, n: nat, worker: nat, base: nat)
    ensures Play(w, cfg, Burst(n, worker, base)) == Bursted(w, cfg, n, worker, base)
  {
    if n > 0 {
      BurstPlays(w, cfg, n - 1, worker, base);
      PlayAppend(w, cfg, Burst(n - 1, worker, base), Call(worker, Letters(base + n), 0, 0, 0, 0));
    }
  }

  lemma {:induction false} BurstedGranted(w: World, cfg: Settings, n: nat, worker: nat, base: nat)
    requires CanBurst(w, cfg, worker, base) && n <= cfg.budget
    ensures AfterBurst(w, Bursted(w, cfg, n, worker, base), n, base)
  {
    if n > 0 {
      BurstedGranted(w, cfg, n - 1, worker, base);
      OneMore(w, Bursted(w, cfg, n - 1, worker, base), cfg, n - 1, worker, base);
    }
  }

  lemma OneMore(w: World, v: World, cfg: Settings, n: nat, worker: nat, base: nat)
    requires CanBurst(w, cfg, worker, base) && n + 1 <= cfg.budget && AfterBurst(w, v, n, base)
    ensures AfterBurst(w, Play(v, cfg, Call(worker, Letters(base + n + 1), 0, 0, 0, 0)), n + 1, base)
  {
    QuickCall(v, cfg, worker, base + n, 0, 0);
    BurstGrows(w, v, Play(v, cfg, Call(worker, Letters(base + n + 1), 0, 0, 0, 0)), cfg, n, base);
  }

  /** A burst within the budget of a fresh second is granted whole, at one instant. */
  lemma {:induction false} BurstGranted(w: World, cfg: Settings, n: nat, worker: nat, base: nat)
    requires CanBurst(w, cfg, worker, base) && n <= cfg.budget
    ensures AfterBurst(w, Play(w, cfg, Burst(n, worker, base)), n, base)
  {
    BurstPlays(w, cfg, n, worker, base);
    BurstedGranted(w, cfg, n, worker, base);
  }

  lemma CallIsPrompt(w: World, cfg: Settings, worker: nat, host: string, d: nat, dwell: nat)
    requires worker !in w.phases
    ensures Prompt(w, cfg, Call(worker, host, d, 0, 0, dwell), dwell)
  {
    var evs := Call(worker, host, d, 0, 0, dwell);
    var w1 := Step(w, cfg, d, Start(worker, host));
    var w2 := Step(w1, cfg, 0, TryHost(worker));
    var w3 := Step(w2, cfg, 0, ReadTtl(worker));
    AloneAtTheHost(w, cfg, worker, host, d, 0, 0);
    assert Prompt(w3, cfg, evs[1..][1..][1..], dwell);
    assert evs[1..][1..][0] == (0, ReadTtl(worker)) && Prompt(w2, cfg, evs[1..][1..], dwell);
    assert evs[1..][0] == (0, TryHost(worker)) && Prompt(w1, cfg, evs[1..], dwell);
  }

  /** While the clock stands still nothing lags. */
  lemma {:induction false} StandingStill(w: World, cfg: Settings, evs: seq<(nat, Event)>)
    requires forall i | 0 <= i < |evs| :: evs[i].0 == 0
    requires forall i | 0 <= i < |evs| && evs[i].1.worker in w.phases :: w.phases[evs[i].1.worker].now == w.clock
    ensures Prompt(w, cfg, evs, 0)
    decreases evs
  {
    if evs != [] {
      var ev := evs[0].1;
      var v := Step(w, cfg, 0, ev);
      if CountsUp(w, ev) {
        assert v.phases == w.phases - {ev.worker} && v.clock == w.clock;
      } else {
        OtherStep(w, cfg, 0, ev);
      }
      forall i | 0 <= i < |evs[1..]| ensures evs[1..][i] == evs[i + 1] {
      }
      StandingStill(v, cfg, evs[1..]);
    }
  }

  lemma {:induction false} BurstStandsStill(n: nat, worker: nat, base: nat)
    ensures forall i | 0 <= i < |Burst(n, worker, base)| ::
      Burst(n, worker, base)[i].0 == 0 && Burst(n, worker, base)[i].1.worker == worker
  {
    if n > 0 {
      BurstStandsStill(n - 1, worker, base);
    }
  }

  lemma BurstIsPrompt(w: World, cfg: Settings, n: nat, worker: nat, base: nat)
    requires worker !in w.phases
    ensures Prompt(w, cfg, Burst(n, worker, base), 0)
  {
    BurstStandsStill(n, worker, base);
    StandingStill(w, cfg, Burst(n, worker, base));
  }

  // ---- an increment outlives its counter -----------------------------------

  /** At a lag of 1002 ms a counter can expire under a late increment, and the calls that read one
      second are granted once more than the budget. */
  lemma LateIncrementOverruns(cfg: Settings)
    requires GateOpens(cfg) && KeepsLetters(cfg) && cfg.budget > 0
    ensures var evs := Burst(cfg.budget, 0, 0) + Call(0, Letters(cfg.budget + 1), 999, 0, 0, 1002);
      Prompt(Quiet(), cfg, evs, 1002) && ReadIn(Play(Quiet(), cfg, evs).granted, 0) == cfg.budget + 1
  {
    var burst, late := Burst(cfg.budget, 0, 0), Call(0, Letters(cfg.budget + 1), 999, 0, 0, 1002);
    BurstGranted(Quiet(), cfg, cfg.budget, 0, 0);
    var w := Play(Quiet(), cfg, burst);
    LateCall(w, cfg);
    LateIsPrompt(cfg);
    PlayAppend(Quiet(), cfg, burst, late);
  }

  lemma LateCall(w: World, cfg: Settings)
    requires GateOpens(cfg) && KeepsLetters(cfg) && cfg.budget > 0 && AfterBurst(Quiet(), w, cfg.budget, 0)
    ensures ReadIn(Play(w, cfg, Call(0, Letters(cfg.budget + 1), 999, 0, 0, 1002)).granted, 0) == cfg.budget + 1
  {
    QuickCall(w, cfg, 0, cfg.budget, 999, 1002);
    LateGranted(w, Play(w, cfg, Call(0, Letters(cfg.budget + 1), 999, 0, 0, 1002)), cfg);
  }

  lemma LateGranted(w: World, end: World, cfg: Settings)
    requires cfg.budget > 0 && AfterBurst(Quiet(), w, cfg.budget, 0) && Called(w, end, cfg, cfg.budget + 1, 999, 2001)
    ensures ReadIn(end.granted, 0) == cfg.budget + 1
  {
    assert end.store.seconds[0] == Counter(1, 4001);
    assert end.granted[..|end.granted| - 1] == w.granted;
  }

  lemma LateIsPrompt(cfg: Settings)
    requires GateOpens(cfg) && KeepsLetters(cfg) && cfg.budget > 0
    ensures Prompt(Quiet(), cfg, Burst(cfg.budget, 0, 0) + Call(0, Letters(cfg.budget + 1), 999, 0, 0, 1002), 1002)
  {
    var burst, late := Burst(cfg.budget, 0, 0), Call(0, Letters(cfg.budget + 1), 999, 0, 0, 1002);
    BurstGranted(Quiet(), cfg, cfg.budget, 0, 0);
    BurstIsPrompt(Quiet(), cfg, cfg.budget, 0, 0);
    CallIsPrompt(Play(Quiet(), cfg, burst), cfg, 0, Letters(cfg.budget + 1), 999, 1002);
    PromptSooner(Quiet(), cfg, burst, 0, 1002);
    PromptAppend(Quiet(), cfg, burst, late, 1002);
  }

  // ---- the exact condition -------------------------------------------------

  ghost predicate BudgetKept(cfg: Settings, lag: nat) {
    forall evs, second: nat | Prompt(Quiet(), cfg, evs, lag) ::
      GrantedIn(Play(Quiet(), cfg, evs).granted, second) <= cfg.budget
  }

  /** Workers 1 to `n` read the clock at the end of a second and pass the host gate. Worker 0 only lets
      time pass. */
  function Crowd(n: nat): seq<(nat, Event)> {
    if n == 0 then [(999, ReadTtl(0))] else Crowd(n - 1) + [(0, Start(n, Letters(n))), (0, TryHost(n))]
  }

  /** They are counted only in the next second. */
  function CountUps(n: nat): seq<(nat, Event)> {
    if n == 0 then [] else CountUps(n - 1) + [(0, CountUp(n))]
  }

  /** The crowd is counted behind a burst of the next second's own calls. */
  function Overrun(n: nat): seq<(nat, Event)> {
    Crowd(n) + [(1, ReadTtl(0))] + Burst(n, 0, n) + CountUps(n)
  }

  ghost predicate Waiting(phases: map<nat, Phase>, from: nat, to: int) {
    && (forall k :: k in phases <==> from < k <= to)
    && (forall k | k in phases :: phases[k].Through? && phases[k].now == 999)
  }

  ghost predicate Crowded(w: World, n: nat, clock: nat) {
    w.clock == clock && w.granted == [] && w.store.seconds == map[] && HostsUpTo(w.store, n) && Waiting(w.phases, 0, n)
  }

  lemma OneJoins(w: World, cfg: Settings, n: nat)
    requires GateOpens(cfg) && KeepsLetters(cfg) && Crowded(w, n, 999)
    ensures var evs := [(0, Start(n + 1, Letters(n + 1))), (0, TryHost(n + 1))];
      Crowded(Play(w, cfg, evs), n + 1, 999) && Prompt(w, cfg, evs, 1)
  {
    var host := Letters(n + 1);
    var evs := [(0, Start(n + 1, host)), (0, TryHost(n + 1))];
    var v := Step(w, cfg, 0, Start(n + 1, host));
    var end := Step(v, cfg, 0, TryHost(n + 1));
    assert cfg.fold(host) == host && !Held(w.store, host, 999);
    assert v.phases == w.phases[n + 1 := Ready(999, host)] && end.phases == w.phases[n + 1 := Through(999, |w.passes|)];
    assert evs[1..] == [(0, TryHost(n + 1))];
    assert Play(v, cfg, evs[1..]) == end && Prompt(v, cfg, evs[1..], 1);
  }

  lemma {:induction false} CrowdGathers(cfg: Settings, n: nat)
    requires GateOpens(cfg) && KeepsLetters(cfg)
    ensures Crowded(Play(Quiet(), cfg, Crowd(n)), n, 999) && Prompt(Quiet(), cfg, Crowd(n), 1)
  {
    if n == 0 {
      assert Crowd(0)[1..] == [] && Play(Quiet(), cfg, Crowd(0)) == Step(Quiet(), cfg, 999, ReadTtl(0));
    } else {
      var joining := [(0, Start(n, Letters(n))), (0, TryHost(n))];
      CrowdGathers(cfg, n - 1);
      OneJoins(Play(Quiet(), cfg, Crowd(n - 1)), cfg, n - 1);
      PlayAppend(Quiet(), cfg, Crowd(n - 1), joining);
      PromptAppend(Quiet(), cfg, Crowd(n - 1), joining, 1);
    }
  }

  lemma SecondTurns(w: World, cfg: Settings, n: nat)
    requires Crowded(w, n, 999)
    ensures Crowded(Play(w, cfg, [(1, ReadTtl(0))]), n, 1000) && Prompt(w, cfg, [(1, ReadTtl(0))], 1)
  {
    var tick := [(1, ReadTtl(0))];
    assert tick[1..] == [] && Play(w, cfg, tick) == Step(w, cfg, 1, ReadTtl(0)) == w.(clock := 1000);
  }

  /** The burst and the first `j` of the crowd have been counted, all within the budget. */
  ghost predicate CountedSoFar(w: World, cfg: Settings, j: nat) {
    && w.clock == 1000 && Waiting(w.phases, j, cfg.budget) && GrantedIn(w.granted, 1) == cfg.budget + j
    && Lookup(w.store.seconds, 0) == if j == 0 then None else Some(Counter(j, 3000))
  }

  lemma OneCounted(w: World, cfg: Settings, j: nat)
    requires CountedSoFar(w, cfg, j) && j < cfg.budget
    ensures CountedSoFar(Play(w, cfg, [(0, CountUp(j + 1))]), cfg, j + 1) && Prompt(w, cfg, [(0, CountUp(j + 1))], 1)
  {
    var last := [(0, CountUp(j + 1))];
    var end := Step(w, cfg, 0, CountUp(j + 1));
    assert last[1..] == [] && Play(w, cfg, last) == end;
    assert end.granted == w.granted + [Grant(w.phases[j + 1].pass, 999, 1000)];
    assert end.granted[..|end.granted| - 1] == w.granted;
    assert end.phases == w.phases - {j + 1};
  }

  lemma {:induction false} CrowdIsCounted(w: World, cfg: Settings, j: nat)
    requires CountedSoFar(w, cfg, 0) && j <= cfg.budget
    ensures CountedSoFar(Play(w, cfg, CountUps(j)), cfg, j) && Prompt(w, cfg, CountUps(j), 1)
  {
    if j > 0 {
      CrowdIsCounted(w, cfg, j - 1);
      OneCounted(Play(w, cfg, CountUps(j - 1)), cfg, j - 1);
      PlayAppend(w, cfg, CountUps(j - 1), [(0, CountUp(j))]);
      PromptAppend(w, cfg, CountUps(j - 1), [(0, CountUp(j))], 1);
    }
  }

  lemma BurstBehindCrowd(w: World, cfg: Settings)
    requires GateOpens(cfg) && KeepsLetters(cfg) && cfg.budget > 0 && Crowded(w, cfg.budget, 1000)
    ensures var burst := Burst(cfg.budget, 0, cfg.budget);
      CountedSoFar(Play(w, cfg, burst), cfg, 0) && Prompt(w, cfg, burst, 1)
  {
    BurstGranted(w, cfg, cfg.budget, 0, cfg.budget);
    BurstIsPrompt(w, cfg, cfg.budget, 0, cfg.budget);
    PromptSooner(w, cfg, Burst(cfg.budget, 0, cfg.budget), 0, 1);
  }

  lemma {:induction false} Together(w: World, cfg: Settings, a: seq<(nat, Event)>, b: seq<(nat, Event)>, lag: nat)
    requires Prompt(w, cfg, a, lag) && Prompt(Play(w, cfg, a), cfg, b, lag)
    ensures Prompt(w, cfg, a + b, lag) && Play(w, cfg, a + b) == Play(Play(w, cfg, a), cfg, b)
  {
    PromptAppend(w, cfg, a, b, lag);
    PlayAppend(w, cfg, a, b);
  }

  /** With a lag of one millisecond up to a second the bound is attained, whatever the budget. */
  lemma BoundAttained(cfg: Settings, lag: nat)
    requires GateOpens(cfg) && KeepsLetters(cfg) && cfg.budget > 0 && 1 <= lag <= 1000
    ensures Prompt(Quiet(), cfg, Overrun(cfg.budget), lag)
    ensures GrantedIn(Play(Quiet(), cfg, Overrun(cfg.budget)).granted, 1) == Reach(lag) * cfg.budget
  {
    var n := cfg.budget;
    var waiting := Play(Quiet(), cfg, Crowd(n));
    CrowdGathers(cfg, n);
    SecondTurns(waiting, cfg, n);
    Together(Quiet(), cfg, Crowd(n), [(1, ReadTtl(0))], 1);
    var turned := Play(waiting, cfg, [(1, ReadTtl(0))]);
    BurstBehindCrowd(turned, cfg);
    Together(Quiet(), cfg, Crowd(n) + [(1, ReadTtl(0))], Burst(n, 0, n), 1);
    CrowdIsCounted(Play(turned, cfg, Burst(n, 0, n)), cfg, n);
    Together(Quiet(), cfg, Crowd(n) + [(1, ReadTtl(0))] + Burst(n, 0, n), CountUps(n), 1);
    PromptSooner(Quiet(), cfg, Overrun(n), 1, lag);
    assert Reach(lag) == 2;
  }

  ghost predicate Shut(w: World) {
    w.granted == [] && forall k | k in w.phases :: w.phases[k].Ready?
  }

  lemma {:induction false} PlayShut(w: World, cfg: Settings, evs: seq<(nat, Event)>)
    requires Shut(w) && !GateOpens(cfg)
    ensures Shut(Play(w, cfg, evs))
    decreases evs
  {
    if evs != [] {
      PlayShut(Step(w, cfg, evs[0].0, evs[0].1), cfg, evs[1..]);
    }
  }

  /** The budget holds in every wall second of every run exactly when increments do not lag at all
      behind their workers' readings of the clock; or trivially, when the host gate refuses everyone. */
  lemma BudgetKeptIff(cfg: Settings, lag: nat)
    requires cfg.budget > 0 && KeepsLetters(cfg)
    ensures BudgetKept(cfg, lag) <==> lag == 0 || !GateOpens(cfg)
  {
    if lag == 0 || !GateOpens(cfg) {
      forall evs, second: nat | Prompt(Quiet(), cfg, evs, lag)
        ensures GrantedIn(Play(Quiet(), cfg, evs).granted, second) <= cfg.budget
      {
        if GateOpens(cfg) {
          BudgetBound(cfg, evs, 0, second);
        } else {
          PlayShut(Quiet(), cfg, evs);
        }
      }
    } else {
      BoundAttained(cfg, 1);
      PromptSooner(Quiet(), cfg, Overrun(cfg.budget), 1, lag);
      assert GrantedIn(Play(Quiet(), cfg, Overrun(cfg.budget)).granted, 1) > cfg.budget;
    }
  }
}
