/** What the dispatcher's records say: every emit decision and every guest call it ever made. */
module DispatchRecords {
  import opened Wrappers
  import opened Breaker
  import opened Registries
  import opened Dispatch
  import opened DispatchWorklist
  import Cycle

  // ---- emit decisions ----

  function Calls(emits: seq<Emission>): seq<Cycle.Call> {
    seq(|emits|, i requires 0 <= i < |emits| => emits[i].call)
  }

  /** A limiter that started fresh at decision `from` has taken all decisions since. */
  ghost predicate Recorded(s: Settings, w: World, from: nat) {
    from <= |w.emits|
    && w.rate == RatesAfter(s.cycle, map[], w.emits[from..])
    && Decided(s, map[], from, w.emits[from..])
  }

  /** It goes on to take those of a dispatch call. */
  lemma RecordedOn(s: Settings, targets: seq<Target>, w: World, w': World, kids: seq<HostEvent>, from: nat)
    requires Recorded(s, w, from) && Emits(s, targets, w, w', kids)
    ensures Recorded(s, w', from)
  {
    hide RatesAfter, Decided;
    var before, taken := w.emits[from..], w'.emits[|w.emits|..];
    assert w'.emits[from..] == before + taken;
    RatesConcat(s.cycle, map[], before, taken);
    DecidedConcat(s, map[], from, before, taken);
  }

  lemma EventRunRecorded(s: Settings, w: World, e: HostEvent, ceiling: nat, from: nat)
    requires Recorded(s, w, from)
    ensures Recorded(s, EventRun(s, w, e, ceiling).world, from)
  {
    hide DispatchSet, Drain, Recorded, Emits;
    var targets, w' := DispatchSet(w, EVENT_REACTION), EventRun(s, w, e, ceiling).world;
    if targets != [] {
      EventRunInOrder(s, w, e, ceiling);
      RecordedOn(s, targets, w, w', Queued(w'.emits[|w.emits|..]), from);
    }
  }

  /** A gate call takes no emit decision. */
  lemma {:induction false} GateRunEmitsNothing(s: Settings, w: World, targets: seq<Target>, input: GateInput)
    ensures GateRun(s, w, targets, input).emits == w.emits && GateRun(s, w, targets, input).rate == w.rate
  {
    if targets != [] {
      GateRunEmitsNothing(s, w, targets[..|targets| - 1], input);
    }
  }

  function EmitKinds(actions: seq<Action>): seq<string> {
    if actions == [] then []
    else
      var last := actions[|actions| - 1];
      EmitKinds(actions[..|actions| - 1]) + if last.EmitEvent? then [last.eventKind] else []
  }

  /** The event an extension emits in reaction to `parent`: a kind of its own, the parent's task and
      run, no status change, and its provenance one step down. */
  ghost predicate EmittedBy(id: string, parent: HostEvent, kind: string, e: HostEvent) {
    e.kind == (if kind == "" then "ext:" + id else "ext:" + id + ":" + kind)
    && e.taskId == parent.taskId && e.runId == parent.runId && e.fromStatus == "" && e.toStatus == ""
    && e.origin.origin == Some(id)
    && (DepthOf(parent) < Cycle.U32_MAX ==> DepthOf(e) == DepthOf(parent) + 1)
  }

  /** The decision at clock reading `k` about an event of that kind. */
  ghost predicate IsAsked(s: Settings, e: Emission, k: nat, id: string, parent: HostEvent, kind: string) {
    e.call == Cycle.Call(id, s.outside.clock(k)) && (e.child.Some? ==> EmittedBy(id, parent, kind, e.child.value))
  }

  /** Every emit action of a reaction is put to the limiter, once and in order, in the name of the
      reacting extension. */
  lemma {:induction false} EveryEmitIsAsked(s: Settings, w: World, id: string, parent: HostEvent, actions: seq<Action>)
    ensures var w', kinds := EmitAll(s, w, id, parent, actions).world, EmitKinds(actions);
            w.emits <= w'.emits && |w'.emits| == |w.emits| + |kinds|
            && forall k :: 0 <= k < |kinds| ==>
                 IsAsked(s, w'.emits[|w.emits| + k], |w.emits| + k, id, parent, kinds[k])
  {
    hide Cycle.Allowed, Cycle.Charged;
    if actions != [] {
      var n := |actions| - 1;
      EveryEmitIsAsked(s, w, id, parent, actions[..n]);
      var before, w' := EmitAll(s, w, id, parent, actions[..n]).world, EmitAll(s, w, id, parent, actions).world;
      var kinds := EmitKinds(actions[..n]);
      forall k | 0 <= k < |EmitKinds(actions)|
        ensures IsAsked(s, w'.emits[|w.emits| + k], |w.emits| + k, id, parent, EmitKinds(actions)[k])
      {
        if k < |kinds| {
          assert w'.emits[|w.emits| + k] == before.emits[|w.emits| + k];
        }
      }
    }
  }

  /** How many events of `id` were queued at times in [lo, hi). */
  function QueuedBy(emits: seq<Emission>, id: string, lo: nat, hi: nat): nat {
    if emits == [] then 0
    else
      var last := emits[|emits| - 1];
      QueuedBy(emits[..|emits| - 1], id, lo, hi)
      + if last.child.Some? && last.child.value.origin.origin == Some(id) && lo <= last.call.now < hi then 1 else 0
  }

  lemma {:induction false} RatesAreAfter(cfg: Cycle.CycleConfig, emits: seq<Emission>)
    ensures RatesAfter(cfg, map[], emits) == Cycle.After(cfg, Calls(emits))
    decreases emits
  {
    hide Cycle.Charged;
    if emits != [] {
      var n := |emits| - 1;
      RatesAreAfter(cfg, emits[..n]);
      assert Calls(emits)[..n] == Calls(emits[..n]);
    }
  }

  lemma {:induction false} QueuedIsAdmitted(s: Settings, emits: seq<Emission>, from: nat,
                                            id: string, lo: nat, hi: nat)
    requires Decided(s, map[], from, emits)
    ensures QueuedBy(emits, id, lo, hi) == Cycle.Emitted(s.cycle, Calls(emits), id, lo, hi)
    decreases emits
  {
    hide Cycle.Allowed, Cycle.After, RatesAfter;
    if emits != [] {
      var n := |emits| - 1;
      DecidedPrefix(s, map[], from, emits, n);
      QueuedIsAdmitted(s, emits[..n], from, id, lo, hi);
      assert DecidedRight(s, map[], from, emits, n);
      RatesAreAfter(s.cycle, emits[..n]);
      Cycle.EmittedSnoc(s.cycle, Calls(emits[..n]), emits[n].call, id, lo, hi);
      assert Calls(emits) == Calls(emits[..n]) + [emits[n].call];
    }
  }

  /** The events queued for one extension keep the limiter's bound. */
  lemma QueuedWithinBound(s: Settings, w: World, from: nat, id: string, t: nat)
    requires Recorded(s, w, from)
    requires forall a, b :: 0 <= a <= b ==> s.outside.clock(a) <= s.outside.clock(b)
    ensures QueuedBy(w.emits[from..], id, t, t + s.cycle.window) <= Cycle.Bound(s.cycle)
  {
    hide RatesAfter, Cycle.Allowed, Cycle.Emitted;
    var emits := w.emits[from..];
    QueuedIsAdmitted(s, emits, from, id, t, t + s.cycle.window);
    forall i | 0 <= i < |emits| ensures Calls(emits)[i].now == s.outside.clock(from + i) {
      assert DecidedRight(s, map[], from, emits, i);
    }
    Cycle.RateBound(s.cycle, Calls(emits), id, t);
  }

  // ---- guest calls ----

  /** Whether the guest faulted in call number `k`. */
  predicate FaultAt(s: Settings, log: seq<Invocation>, k: nat)
    requires k < |log|
  {
    match log[k]
    case GateCall(_, sha, input) => s.outside.gate(k, sha, input).Err?
    case Reaction(_, sha, _, view) => s.outside.react(k, sha, view).Err?
  }

  /** What a faulted call reports: the fault, marked as failing closed for a gate. */
  function FaultReason(s: Settings, log: seq<Invocation>, k: nat): Option<string>
    requires k < |log|
  {
    match log[k]
    case GateCall(_, sha, input) =>
      (match s.outside.gate(k, sha, input)
       case Ok(_) => None
       case Err(fault) => Some("gate check failed closed: " + fault))
    case Reaction(_, sha, _, view) =>
      (match s.outside.react(k, sha, view)
       case Ok(_) => None
       case Err(fault) => Some(fault))
  }

  /** The alert is about the extension of that call, which faulted for the reason given, and reports a
      full run of faults. */
  predicate AlertOfCall(s: Settings, log: seq<Invocation>, k: nat, a: Alert) {
    k < |log| && log[k].id == a.extId && FaultReason(s, log, k) == Some(a.lastReason)
    && a.threshold == s.threshold <= a.consecutive
  }

  ghost predicate HasCall(s: Settings, log: seq<Invocation>, from: nat, a: Alert) {
    exists k: nat :: from <= k && AlertOfCall(s, log, k, a)
  }

  /** Every alert sent between two states is that of a call made in between. */
  ghost predicate AlertsFromCalls(s: Settings, w: World, w': World) {
    w.log <= w'.log && w.alerts <= w'.alerts
    && forall j :: |w.alerts| <= j < |w'.alerts| ==> HasCall(s, w'.log, |w.log|, w'.alerts[j])
  }

  lemma AlertsSame(s: Settings, w: World, w': World)
    requires w.log <= w'.log && w'.alerts == w.alerts
    ensures AlertsFromCalls(s, w, w')
  {
  }

  lemma AlertsTrans(s: Settings, a: World, b: World, c: World)
    requires AlertsFromCalls(s, a, b) && AlertsFromCalls(s, b, c)
    ensures AlertsFromCalls(s, a, c)
  {
    forall j | |a.alerts| <= j < |c.alerts| ensures HasCall(s, c.log, |a.log|, c.alerts[j]) {
      if j < |b.alerts| {
        assert c.alerts[j] == b.alerts[j];
        var k: nat :| |a.log| <= k && AlertOfCall(s, b.log, k, b.alerts[j]);
        assert c.log[k] == b.log[k];
        assert AlertOfCall(s, c.log, k, c.alerts[j]);
      } else {
        var k: nat :| |b.log| <= k && AlertOfCall(s, c.log, k, c.alerts[j]);
        assert |a.log| <= k;
      }
    }
  }

  lemma FaultedAlerts(s: Settings, w: World, call: Invocation, reason: string)
    requires FaultReason(s, w.log + [call], |w.log|) == Some(reason)
    ensures AlertsFromCalls(s, w, Faulted(s, w.(log := w.log + [call]), call.id, reason))
  {
    hide FaultReason, WithEnabled;
    var w' := Faulted(s, w.(log := w.log + [call]), call.id, reason);
    assert w'.log == w.log + [call];
    if w'.alerts != w.alerts {
      assert AlertOfCall(s, w'.log, |w.log|, w'.alerts[|w.alerts|]);
    }
  }

  /** How the calls of `id` from number `from` on came out; true for a fault. */
  function Outcomes(s: Settings, log: seq<Invocation>, from: nat, id: string): seq<bool> {
    if |log| <= from then []
    else
      var n := |log| - 1;
      Outcomes(s, log[..n], from, id) + if log[n].id == id then [FaultAt(s, log, n)] else []
  }

  lemma {:induction false} OutcomesConcat(s: Settings, log: seq<Invocation>, from: nat, mid: nat, id: string)
    requires from <= mid <= |log|
    ensures Outcomes(s, log, from, id) == Outcomes(s, log[..mid], from, id) + Outcomes(s, log, mid, id)
    decreases log
  {
    if mid < |log| {
      var n := |log| - 1;
      OutcomesConcat(s, log[..n], from, mid, id);
      assert log[..n][..mid] == log[..mid];
    } else {
      assert log[..mid] == log;
    }
  }

  /** Between two states the breaker of every extension was fed exactly the outcomes of its calls. */
  ghost predicate FeedsBreaker(s: Settings, w: World, w': World) {
    w.log <= w'.log
    && (0 < s.threshold <= U32_MAX ==>
          forall id, h :: Matches(w.breaker, id, h, s.threshold) ==>
            Matches(w'.breaker, id, h + Outcomes(s, w'.log, |w.log|, id), s.threshold))
  }

  lemma FeedsSame(s: Settings, w: World, w': World)
    requires w'.log == w.log && w'.breaker == w.breaker
    ensures FeedsBreaker(s, w, w')
  {
    hide Matches;
    assert forall id, h: seq<bool> :: h + Outcomes(s, w'.log, |w.log|, id) == h;
  }

  lemma FeedsTrans(s: Settings, a: World, b: World, c: World)
    requires FeedsBreaker(s, a, b) && FeedsBreaker(s, b, c)
    ensures FeedsBreaker(s, a, c)
  {
    hide Matches, Outcomes;
    forall id, h | 0 < s.threshold <= U32_MAX && Matches(a.breaker, id, h, s.threshold)
      ensures Matches(c.breaker, id, h + Outcomes(s, c.log, |a.log|, id), s.threshold)
    {
      var first, second := Outcomes(s, b.log, |a.log|, id), Outcomes(s, c.log, |b.log|, id);
      OutcomesConcat(s, c.log, |a.log|, |b.log|, id);
      assert c.log[..|b.log|] == b.log && (h + first) + second == h + (first + second);
    }
  }

  /** One guest call with its effect on the breaker. */
  lemma CallFeeds(s: Settings, w: World, w': World, call: Invocation, op: Op)
    requires w'.log == w.log + [call] && op.id == call.id && !op.Reset?
    requires IsFailure(op) <==> FaultAt(s, w'.log, |w.log|)
    requires w'.breaker == Apply(s.threshold, w.breaker, op)
    ensures FeedsBreaker(s, w, w')
  {
    hide Apply, HasRun, FaultAt;
    forall id, h | 0 < s.threshold <= U32_MAX && Matches(w.breaker, id, h, s.threshold)
      ensures Matches(w'.breaker, id, h + Outcomes(s, w'.log, |w.log|, id), s.threshold)
    {
      assert w'.log[..|w.log|] == w.log && Outcomes(s, w.log, |w.log|, id) == [];
      if id == call.id {
        assert Outcomes(s, w'.log, |w.log|, id) == [IsFailure(op)];
        OutcomeMatches(s.threshold, w.breaker, op, h);
      } else {
        assert h + Outcomes(s, w'.log, |w.log|, id) == h;
        OtherUnchanged(s.threshold, w.breaker, op, id);
      }
    }
  }
}
