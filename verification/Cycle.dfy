/** The event cycle guard: admission of deliveries and the per-extension emit rate limit. */
module Cycle {
  import opened Wrappers

  const U32_MAX := 0xFFFF_FFFF

  datatype CycleConfig =
    CycleConfig(maxDepth: nat, maxSelfReentry: nat, emitsPerWindow: nat, window: nat)

  datatype EventOrigin = EventOrigin(origin: Option<string>, depth: nat)

  const HOST := EventOrigin(None, 0)

  /** The provenance of an event `extId` emits in reaction to one with provenance `o`. */
  function Descend(o: EventOrigin, extId: string): EventOrigin {
    EventOrigin(Some(extId), if o.depth < U32_MAX then o.depth + 1 else o.depth)
  }

  datatype Admission = Admit | DropDepth(depth: nat) | DropReentry(extId: string, depth: nat)

  function Admitted(cfg: CycleConfig, target: string, o: EventOrigin): Admission {
    if o.depth >= cfg.maxDepth then DropDepth(o.depth)
    else if o.origin == Some(target) && o.depth >= cfg.maxSelfReentry then DropReentry(target, o.depth)
    else Admit
  }

  datatype RateState = RateState(windowStart: nat, count: nat)

  type Rates = map<string, RateState>

  /** `duration_since`, which is zero for an earlier instant. */
  function Elapsed(now: nat, start: nat): nat {
    if now >= start then now - start else 0
  }

  /** The window a call at `now` is charged to. */
  function Current(cfg: CycleConfig, r: Rates, id: string, now: nat): RateState {
    if id !in r || Elapsed(now, r[id].windowStart) >= cfg.window then RateState(now, 0) else r[id]
  }

  predicate Allowed(cfg: CycleConfig, r: Rates, id: string, now: nat) {
    Current(cfg, r, id, now).count < cfg.emitsPerWindow
  }

  function Charged(cfg: CycleConfig, r: Rates, id: string, now: nat): Rates {
    var st := Current(cfg, r, id, now);
    r[id := if st.count < cfg.emitsPerWindow then st.(count := st.count + 1) else st]
  }

  class CycleGuard {
    const cfg: CycleConfig
    var rate: Rates

    constructor (cfg: CycleConfig)
      ensures this.cfg == cfg && rate == map[]
    {
      this.cfg := cfg;
      rate := map[];
    }

    method AllowEmitAt(id: string, now: nat) returns (ok: bool)
      modifies this
      ensures ok == Allowed(cfg, old(rate), id, now)
      ensures rate == Charged(cfg, old(rate), id, now)
    {
      var st := if id in rate then rate[id] else RateState(now, 0);
      if Elapsed(now, st.windowStart) >= cfg.window {
        st := RateState(now, 0);
      }
      ok := st.count < cfg.emitsPerWindow;
      if ok {
        st := st.(count := st.count + 1);
      }
      rate := rate[id := st];
    }
  }

  // ---- chains of emissions ----

  /** The provenance of an event at the end of a chain of emitters that a host event started. */
  function Provenance(chain: seq<string>): EventOrigin {
    if chain == [] then HOST else Descend(Provenance(chain[..|chain| - 1]), chain[|chain| - 1])
  }

  /** How often `id` occurs in the chain. */
  function TimesIn(chain: seq<string>, id: string): nat {
    if chain == [] then 0
    else TimesIn(chain[..|chain| - 1], id) + if chain[|chain| - 1] == id then 1 else 0
  }

  /** How often in a row the chain ends with `id`: an event it delivers to `id` is that many
      re-entries of the extension that emitted it. */
  function TimesAtEnd(chain: seq<string>, id: string): nat {
    if chain == [] || chain[|chain| - 1] != id then 0 else 1 + TimesAtEnd(chain[..|chain| - 1], id)
  }

  predicate IsAdmitted(cfg: CycleConfig, chain: seq<string>, target: string) {
    Admitted(cfg, target, Provenance(chain)) == Admit
  }

  /** All that admission sees of a chain is its length and its last emitter. */
  lemma {:induction false} ChainProvenance(chain: seq<string>)
    requires |chain| <= 4294967295
    ensures Provenance(chain)
         == EventOrigin(if chain == [] then None else Some(chain[|chain| - 1]), |chain|)
  {
    if chain != [] {
      ChainProvenance(chain[..|chain| - 1]);
    }
  }

  lemma AdmittedIff(cfg: CycleConfig, chain: seq<string>, target: string)
    requires cfg.maxDepth <= U32_MAX
    ensures IsAdmitted(cfg, chain, target) <==>
            |chain| < cfg.maxDepth
            && (chain != [] && chain[|chain| - 1] == target ==> |chain| < cfg.maxSelfReentry)
  {
    if |chain| <= U32_MAX {
      ChainProvenance(chain);
    } else {
      DeepChain(chain);
    }
  }

  lemma {:induction false} DeepChain(chain: seq<string>)
    requires |chain| >= U32_MAX
    ensures Provenance(chain).depth == U32_MAX
  {
    if |chain| > U32_MAX {
      DeepChain(chain[..|chain| - 1]);
    } else {
      ChainProvenance(chain);
    }
  }

  lemma {:induction false} TimesBounds(chain: seq<string>, id: string)
    ensures TimesAtEnd(chain, id) <= TimesIn(chain, id) <= |chain|
    ensures TimesIn(chain, id) > 0 <==> id in chain
  {
    if chain != [] {
      var n := |chain| - 1;
      TimesBounds(chain[..n], id);
      assert chain == chain[..n] + [chain[n]];
    }
  }

  /** `n` emissions by `other`, then one by `id`. */
  function Detour(other: string, n: nat, id: string): seq<string> {
    seq(n, _ => other) + [id]
  }

  lemma {:induction false} NotIn(other: string, n: nat, id: string)
    requires other != id
    ensures TimesIn(seq(n, _ => other), id) == 0
  {
    TimesBounds(seq(n, _ => other), id);
  }

  lemma DetourTimes(other: string, n: nat, id: string)
    requires other != id
    ensures TimesIn(Detour(other, n, id), id) == 1 && TimesAtEnd(Detour(other, n, id), id) == 1
  {
    NotIn(other, n, id);
    TimesBounds(seq(n, _ => other), id);
    assert Detour(other, n, id)[..n] == seq(n, _ => other);
  }

  /** "How many times an event may re-enter the same extension that emitted it": the re-entries
      counted on the chain are fewer than the bound. */
  predicate ReentersFewTimes(cfg: CycleConfig, chain: seq<string>, target: string) {
    TimesAtEnd(chain, target) > 0 ==> TimesAtEnd(chain, target) < cfg.maxSelfReentry
  }

  /** "A causal chain that re-enters the same extension": through whatever others. */
  predicate ChainEntersFewTimes(cfg: CycleConfig, chain: seq<string>, target: string) {
    TimesIn(chain, target) > 0 ==> TimesIn(chain, target) < cfg.maxSelfReentry
  }

  /** The code compares the whole depth with the bound, so it counts re-entries only when the bound
      is at most 1 or out of reach: otherwise A's own event is refused after a detour through B. */
  lemma SelfReentryAsDocumentedIff(cfg: CycleConfig)
    requires cfg.maxDepth <= U32_MAX
    ensures (forall chain, target :: IsAdmitted(cfg, chain, target) <==>
               |chain| < cfg.maxDepth && ReentersFewTimes(cfg, chain, target))
            <==> cfg.maxSelfReentry <= 1 || cfg.maxDepth <= cfg.maxSelfReentry
  {
    var m := cfg.maxSelfReentry;
    forall chain, target | m <= 1 || cfg.maxDepth <= m
      ensures IsAdmitted(cfg, chain, target) <==> |chain| < cfg.maxDepth && ReentersFewTimes(cfg, chain, target)
    {
      AdmittedIff(cfg, chain, target);
      TimesBounds(chain, target);
    }
    if 1 < m < cfg.maxDepth {
      var chain := Detour("b", m - 1, "a");
      DetourTimes("b", m - 1, "a");
      AdmittedIff(cfg, chain, "a");
      assert !IsAdmitted(cfg, chain, "a") && ReentersFewTimes(cfg, chain, "a");
    }
  }

  /** And it sees only the last emitter: a chain that comes back to A through B is let through, so
      chains as such are bounded as documented only when they are too short to come back. */
  lemma ChainReentryAsDocumentedIff(cfg: CycleConfig)
    requires cfg.maxDepth <= U32_MAX
    ensures (forall chain, target :: IsAdmitted(cfg, chain, target) <==>
               |chain| < cfg.maxDepth && ChainEntersFewTimes(cfg, chain, target))
            <==> cfg.maxDepth <= 2 || cfg.maxDepth <= cfg.maxSelfReentry
  {
    var m := cfg.maxSelfReentry;
    forall chain, target | cfg.maxDepth <= 2 || cfg.maxDepth <= m
      ensures IsAdmitted(cfg, chain, target)
              <==> |chain| < cfg.maxDepth && ChainEntersFewTimes(cfg, chain, target)
    {
      AdmittedIff(cfg, chain, target);
      TimesBounds(chain, target);
      assert |chain| == 1 ==> chain == [chain[0]] && chain[..0] == [];
    }
    if 2 < cfg.maxDepth && m < cfg.maxDepth {
      if m <= 1 {
        var chain := Detour("a", 1, "b");
        AdmittedIff(cfg, chain, "a");
        TimesBounds(chain, "a");
        assert "a" == chain[0] && chain[1] == "b";
        assert IsAdmitted(cfg, chain, "a") && !ChainEntersFewTimes(cfg, chain, "a");
      } else {
        var chain := Detour("b", m - 1, "a");
        DetourTimes("b", m - 1, "a");
        AdmittedIff(cfg, chain, "a");
        assert !IsAdmitted(cfg, chain, "a") && ChainEntersFewTimes(cfg, chain, "a");
      }
    }
  }

  // ---- histories of rate-limit calls ----

  datatype Call = Call(id: string, now: nat)

  ghost predicate Monotone(calls: seq<Call>) {
    forall i, j :: 0 <= i < j < |calls| ==> calls[i].now <= calls[j].now
  }

  /** The limiter after a whole history, starting fresh. */
  function After(cfg: CycleConfig, calls: seq<Call>): Rates {
    if calls == [] then map[]
    else
      var n := |calls| - 1;
      Charged(cfg, After(cfg, calls[..n]), calls[n].id, calls[n].now)
  }

  predicate AllowedAt(cfg: CycleConfig, calls: seq<Call>, i: int)
    requires 0 <= i < |calls|
  {
    Allowed(cfg, After(cfg, calls[..i]), calls[i].id, calls[i].now)
  }

  /** How many emissions of `id` were admitted in the half-open interval [lo, hi). */
  function Emitted(cfg: CycleConfig, calls: seq<Call>, id: string, lo: nat, hi: nat): nat {
    if calls == [] then 0
    else
      var n := |calls| - 1;
      Emitted(cfg, calls[..n], id, lo, hi)
      + if calls[n].id == id && lo <= calls[n].now < hi && AllowedAt(cfg, calls, n) then 1 else 0
  }

  /** The most emissions of one extension that any interval one window long can hold. */
  function Bound(cfg: CycleConfig): nat {
    if cfg.emitsPerWindow == 0 then 0
    else if cfg.window <= 1 then cfg.emitsPerWindow
    else 2 * cfg.emitsPerWindow - 1
  }

  /** What is known of `id`'s window after a history, against the interval [t, t + window). */
  ghost predicate WindowInv(cfg: CycleConfig, calls: seq<Call>, id: string, t: nat) {
    var r, a := After(cfg, calls), Emitted(cfg, calls, id, t, t + cfg.window);
    if id !in r then a == 0
    else
      var s, c, e := r[id].windowStart, r[id].count, cfg.emitsPerWindow;
      && calls != []
      && s <= calls[|calls| - 1].now
      && (if e == 0 then c == 0 else 1 <= c <= e)
      && a <= Bound(cfg)
      && (s < t ==> a <= (if c == 0 then 0 else c - 1))
      && (s == t ==> a <= c)
      && (t < s < t + cfg.window ==> a <= (if e == 0 then 0 else e - 1) + c)
  }

  /** No emission is counted before the interval starts. */
  lemma {:induction false} NothingYet(cfg: CycleConfig, calls: seq<Call>, id: string, t: nat, hi: nat)
    requires forall i :: 0 <= i < |calls| && calls[i].id == id ==> calls[i].now < t
    ensures Emitted(cfg, calls, id, t, hi) == 0
  {
    if calls != [] {
      NothingYet(cfg, calls[..|calls| - 1], id, t, hi);
    }
  }

  /** Every call for `id` lies in its current window or before it. */
  lemma {:induction false} CallsBeforeWindowEnd(cfg: CycleConfig, calls: seq<Call>, id: string)
    requires Monotone(calls) && cfg.window > 0
    ensures forall i :: 0 <= i < |calls| && calls[i].id == id ==>
              id in After(cfg, calls) && calls[i].now < After(cfg, calls)[id].windowStart + cfg.window
  {
    if calls != [] {
      var n := |calls| - 1;
      CallsBeforeWindowEnd(cfg, calls[..n], id);
      forall i | 0 <= i < n && calls[i].id == id
        ensures id in After(cfg, calls) && calls[i].now < After(cfg, calls)[id].windowStart + cfg.window
      {
        assert calls[..n][i] == calls[i];
        assert calls[i].now <= calls[n].now;
      }
    }
  }

  lemma WindowStep(cfg: CycleConfig, before: seq<Call>, c: Call, t: nat)
    requires cfg.window > 0 && WindowInv(cfg, before, c.id, t) && Monotone(before + [c])
    ensures WindowInv(cfg, before + [c], c.id, t)
  {
    var id, calls := c.id, before + [c];
    assert Monotone(before) && (before != [] ==> before[|before| - 1].now <= c.now) by {
      assert calls[|before|] == c && forall i :: 0 <= i < |before| ==> before[i] == calls[i];
    }
    CallsBeforeWindowEnd(cfg, before, id);
    var r := After(cfg, before);
    if id in r && c.now - r[id].windowStart >= cfg.window && c.now <= t {
      NothingYet(cfg, before, id, t, t + cfg.window);
    }
    hide After, Emitted, Monotone;
    AfterSnoc(cfg, before, c);
    EmittedSnoc(cfg, before, c, id, t, t + cfg.window);
  }

  lemma {:induction false} WindowInvHolds(cfg: CycleConfig, calls: seq<Call>, id: string, t: nat)
    requires Monotone(calls) && cfg.window > 0
    ensures WindowInv(cfg, calls, id, t)
  {
    if calls != [] {
      var n := |calls| - 1;
      var before := calls[..n];
      WindowInvHolds(cfg, before, id, t);
      assert calls == before + [calls[n]];
      if calls[n].id == id {
        WindowStep(cfg, before, calls[n], t);
      } else {
        assert n > 0 ==> before[n - 1] == calls[n - 1];
      }
    }
  }

  /** Whatever the calls, an interval one window long never holds more than twice the budget
      less one admitted emissions of any one extension. */
  lemma RateBound(cfg: CycleConfig, calls: seq<Call>, id: string, t: nat)
    requires Monotone(calls)
    ensures Emitted(cfg, calls, id, t, t + cfg.window) <= Bound(cfg)
  {
    if cfg.window == 0 {
      EmptyInterval(cfg, calls, id, t);
    } else {
      WindowInvHolds(cfg, calls, id, t);
    }
  }

  lemma {:induction false} EmptyInterval(cfg: CycleConfig, calls: seq<Call>, id: string, t: nat)
    ensures Emitted(cfg, calls, id, t, t) == 0
  {
    if calls != [] {
      EmptyInterval(cfg, calls[..|calls| - 1], id, t);
    }
  }

  /** Since the current window of `id` opened, exactly `count` emissions were admitted, within
      the budget.  With a window of no length every call opens one of its own. */
  lemma {:induction false} WindowBudget(cfg: CycleConfig, calls: seq<Call>, id: string, hi: nat)
    requires Monotone(calls) && id in After(cfg, calls)
    requires calls[|calls| - 1].now < hi
    ensures var st := After(cfg, calls)[id];
            st.windowStart <= calls[|calls| - 1].now && st.count <= cfg.emitsPerWindow
            && if cfg.window > 0 then Emitted(cfg, calls, id, st.windowStart, hi) == st.count
               else st.count == if cfg.emitsPerWindow == 0 then 0 else 1
  {
    var n := |calls| - 1;
    var before := calls[..n];
    var start := After(cfg, calls)[id].windowStart;
    if id in After(cfg, before) {
      assert before[n - 1] == calls[n - 1];
      WindowBudget(cfg, before, id, hi);
      if cfg.window > 0 {
        CallsBeforeWindowEnd(cfg, before, id);
      }
      if cfg.window > 0 && start != After(cfg, before)[id].windowStart {
        NothingYet(cfg, before, id, start, hi);
      }
    } else {
      NeverCalled(cfg, before, id);
      NothingYet(cfg, before, id, start, hi);
    }
  }

  lemma {:induction false} NeverCalled(cfg: CycleConfig, calls: seq<Call>, id: string)
    requires id !in After(cfg, calls)
    ensures forall i :: 0 <= i < |calls| ==> calls[i].id != id
  {
    if calls != [] {
      NeverCalled(cfg, calls[..|calls| - 1], id);
      assert forall i :: 0 <= i < |calls| - 1 ==> calls[i] == calls[..|calls| - 1][i];
    }
  }

  // ---- the bound is exact ----

  function Burst(id: string, now: nat, n: nat): seq<Call> {
    seq(n, i => Call(id, now))
  }

  lemma AfterSnoc(cfg: CycleConfig, calls: seq<Call>, c: Call)
    ensures After(cfg, calls + [c]) == Charged(cfg, After(cfg, calls), c.id, c.now)
  {
  }

  lemma EmittedSnoc(cfg: CycleConfig, calls: seq<Call>, c: Call, id: string, lo: nat, hi: nat)
    ensures Emitted(cfg, calls + [c], id, lo, hi)
         == Emitted(cfg, calls, id, lo, hi)
            + if c.id == id && lo <= c.now < hi && Allowed(cfg, After(cfg, calls), c.id, c.now) then 1 else 0
  {
  }

  /** `n` calls at one instant are all admitted while the budget lasts. */
  lemma {:induction false} BurstRuns(cfg: CycleConfig, calls: seq<Call>, id: string, now: nat, n: nat,
                                     st: RateState, lo: nat, hi: nat)
    requires lo <= now < hi && n > 0
    requires Current(cfg, After(cfg, calls), id, now) == st && st.count + n <= cfg.emitsPerWindow
    requires Elapsed(now, st.windowStart) < cfg.window
    ensures var all := calls + Burst(id, now, n);
            id in After(cfg, all) && After(cfg, all)[id] == RateState(st.windowStart, st.count + n)
            && Emitted(cfg, all, id, lo, hi) == Emitted(cfg, calls, id, lo, hi) + n
    decreases n
  {
    hide After, Emitted;
    var c, before := Call(id, now), calls + Burst(id, now, n - 1);
    assert calls + Burst(id, now, n) == before + [c];
    AfterSnoc(cfg, before, c);
    EmittedSnoc(cfg, before, c, id, lo, hi);
    if n > 1 {
      BurstRuns(cfg, calls, id, now, n - 1, st, lo, hi);
    } else {
      assert before == calls;
    }
  }

  lemma FirstCall(cfg: CycleConfig, id: string, lo: nat, hi: nat)
    requires cfg.emitsPerWindow > 0 && cfg.window > 0 && lo > 0
    ensures var first := [Call(id, 0)];
            After(cfg, first) == map[id := RateState(0, 1)] && Emitted(cfg, first, id, lo, hi) == 0
  {
  }

  /** Every budget and every window longer than one instant has a history that reaches the bound. */
  lemma BoundReached(cfg: CycleConfig, id: string) returns (calls: seq<Call>, t: nat)
    requires cfg.emitsPerWindow > 0 && cfg.window > 1
    ensures Monotone(calls)
    ensures Emitted(cfg, calls, id, t, t + cfg.window) == Bound(cfg)
  {
    hide After, Emitted;
    var e, w := cfg.emitsPerWindow, cfg.window;
    t := w - 1;
    var first := [Call(id, 0)];
    FirstCall(cfg, id, t, t + w);
    var second := first + Burst(id, t, e - 1);
    if e > 1 {
      BurstRuns(cfg, first, id, t, e - 1, RateState(0, 1), t, t + w);
    } else {
      assert second == first;
    }
    BurstRuns(cfg, second, id, w, e, RateState(w, 0), t, t + w);
    calls := second + Burst(id, w, e);
  }

  /** The interval one window long that starts at `t` stays within the budget. */
  predicate WithinLimit(cfg: CycleConfig, calls: seq<Call>, id: string, t: nat) {
    Emitted(cfg, calls, id, t, t + cfg.window) <= cfg.emitsPerWindow
  }

  /** "Maximum events one extension may emit within the window", read as any interval of that
      length: the tumbling window keeps it exactly when the budget or the window is at most 1. */
  lemma RollingLimitIff(cfg: CycleConfig, id: string)
    ensures (forall calls, t: nat :: Monotone(calls) ==> WithinLimit(cfg, calls, id, t))
            <==> cfg.emitsPerWindow <= 1 || cfg.window <= 1
  {
    if cfg.emitsPerWindow <= 1 || cfg.window <= 1 {
      forall calls, t: nat | Monotone(calls)
        ensures WithinLimit(cfg, calls, id, t)
      {
        RateBound(cfg, calls, id, t);
      }
    } else {
      var calls, t := BoundReached(cfg, id);
      assert !WithinLimit(cfg, calls, id, t);
    }
  }

  /** The calls that concern one extension. */
  function Own(calls: seq<Call>, id: string): seq<Call> {
    if calls == [] then []
    else
      var n := |calls| - 1;
      Own(calls[..n], id) + (if calls[n].id == id then [calls[n]] else [])
  }

  predicate SameRate(a: Rates, b: Rates, id: string) {
    (id in a <==> id in b) && (id in a ==> a[id] == b[id])
  }

  lemma {:induction false} OwnRate(cfg: CycleConfig, calls: seq<Call>, id: string)
    ensures SameRate(After(cfg, Own(calls, id)), After(cfg, calls), id)
  {
    if calls != [] {
      var n := |calls| - 1;
      OwnRate(cfg, calls[..n], id);
      var mine := Own(calls[..n], id);
      if calls[n].id == id {
        assert (mine + [calls[n]])[..|mine|] == mine;
      } else {
        assert mine + [] == mine;
      }
    }
  }

  lemma SameDecision(cfg: CycleConfig, a: Rates, b: Rates, id: string, now: nat)
    requires SameRate(a, b, id)
    ensures Allowed(cfg, a, id, now) == Allowed(cfg, b, id, now)
  {
  }

  /** Extensions have separate budgets: what is admitted for one depends only on its own calls. */
  lemma {:induction false} Independent(cfg: CycleConfig, calls: seq<Call>, id: string, lo: nat, hi: nat)
    ensures Emitted(cfg, Own(calls, id), id, lo, hi) == Emitted(cfg, calls, id, lo, hi)
  {
    hide After, Allowed, SameRate;
    if calls != [] {
      var n := |calls| - 1;
      var mine := Own(calls[..n], id);
      Independent(cfg, calls[..n], id, lo, hi);
      OwnRate(cfg, calls[..n], id);
      if calls[n].id == id {
        SameDecision(cfg, After(cfg, mine), After(cfg, calls[..n]), id, calls[n].now);
        EmittedSnoc(cfg, mine, calls[n], id, lo, hi);
      } else {
        assert mine + [] == mine;
      }
    }
  }
}
