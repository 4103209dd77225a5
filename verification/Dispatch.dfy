/** Extension dispatch: the fail-closed gate and the fail-open, cycle-guarded event worklist. */
module Dispatch {
  import opened Wrappers
  import opened Strings
  import opened Breaker
  import opened Registries
  import Cycle

  const GATE_CHECK := "gate-check"
  const EVENT_REACTION := "event-reaction"
  const MAX_EVENTS_PER_DISPATCH: nat := 256

  datatype VerdictKind = Pass | Fail | Skip

  datatype Verdict = Verdict(kind: VerdictKind, message: string)

  datatype GateInput =
    GateInput(taskId: string, taskSummary: string, filesChanged: nat, insertions: nat, deletions: nat)

  datatype GateDecision = Land | Block(reason: string)

  datatype HostEvent = HostEvent(kind: string, taskId: string, runId: string, fromStatus: string,
                                 toStatus: string, origin: Cycle.EventOrigin)

  /** The guest's view of an event. */
  datatype ExtEvent = ExtEvent(kind: string, taskId: string, runId: string, fromStatus: string,
                               toStatus: string, origin: string, depth: nat)

  datatype Action = EmitEvent(eventKind: string) | Notify(message: string) | NoAction

  /** The foreign parts: what the n-th guest call returns (a fault is its message) and what the
      n-th reading of the clock shows. */
  datatype Outside = Outside(
    gate: (nat, string, GateInput) -> Result<Verdict, string>,
    react: (nat, string, ExtEvent) -> Result<seq<Action>, string>,
    clock: nat -> nat)

  datatype Settings = Settings(threshold: nat, cycle: Cycle.CycleConfig, outside: Outside)

  /** A guest call as it was made; for a reaction, the event and what the guest was told of it. */
  datatype Invocation =
    | GateCall(id: string, sha: string, input: GateInput)
    | Reaction(id: string, sha: string, event: HostEvent, view: ExtEvent)

  /** An emit decision: who asked and when, and the event put on the queue if it was allowed. */
  datatype Emission = Emission(call: Cycle.Call, child: Option<HostEvent>)

  /** All dispatch state: the registered records, breaker and rate tables; and what happened so
      far: the alerts sent, the guest calls made and the emit decisions taken. */
  datatype World = World(order: seq<ExtensionRecord>, breaker: Table, rate: Cycle.Rates,
                         alerts: seq<Alert>, log: seq<Invocation>, emits: seq<Emission>)

  datatype Target = Target(id: string, sha: string)

  /** The enabled exporters of an interface whose breaker has not tripped. */
  function Targets(records: seq<ExtensionRecord>, t: Table): seq<Target> {
    if records == [] then []
    else
      var r := records[|records| - 1];
      Targets(records[..|records| - 1], t) + if IsTripped(t, r.id) then [] else [Target(r.id, r.wasmSha256)]
  }

  function DispatchSet(w: World, i: string): seq<Target> {
    Targets(DispatchList(w.order, i), w.breaker)
  }

  function ToExtEvent(e: HostEvent): ExtEvent {
    ExtEvent(e.kind, e.taskId, e.runId, e.fromStatus, e.toStatus,
             if e.origin.origin.Some? then e.origin.origin.value else "", e.origin.depth)
  }

  // ---- breaker consequences ----

  function Tripped(w: World, a: Alert): World {
    w.(order := WithEnabled(w.order, a.extId, false), alerts := w.alerts + [a])
  }

  function Faulted(s: Settings, w: World, id: string, reason: string): World {
    var w' := w.(breaker := AfterFailure(s.threshold, w.breaker, id));
    match FailureAlert(s.threshold, w.breaker, id, reason)
    case Some(a) => Tripped(w', a)
    case None => w'
  }

  function Succeeded(w: World, id: string): World {
    w.(breaker := AfterSuccess(w.breaker, id))
  }

  // ---- the gate ----

  function GateVerdictFailClosed(result: Result<Verdict, string>): Verdict {
    match result
    case Ok(v) => v
    case Err(fault) => Verdict(Fail, "gate check failed closed: " + fault)
  }

  function GateOne(s: Settings, w: World, t: Target, input: GateInput): World {
    var result := s.outside.gate(|w.log|, t.sha, input);
    var w' := w.(log := w.log + [GateCall(t.id, t.sha, input)]);
    if result.Err? then Faulted(s, w', t.id, GateVerdictFailClosed(result).message)
    else Succeeded(w', t.id)
  }

  function GateRun(s: Settings, w: World, targets: seq<Target>, input: GateInput): World {
    if targets == [] then w
    else
      var n := |targets| - 1;
      GateOne(s, GateRun(s, w, targets[..n], input), targets[n], input)
  }

  /** The outcome of the `k`-th target when the first one is guest call number `first`. */
  function VerdictAt(s: Settings, first: nat, t: Target, k: nat, input: GateInput): Verdict {
    GateVerdictFailClosed(s.outside.gate(first + k, t.sha, input))
  }

  function Reason(t: Target, v: Verdict): string {
    "[" + t.id + "] " + v.message
  }

  /** The reasons of the failing targets, in order. */
  function Blocks(s: Settings, first: nat, targets: seq<Target>, input: GateInput): seq<string> {
    if targets == [] then []
    else
      var n := |targets| - 1;
      var v := VerdictAt(s, first, targets[n], n, input);
      Blocks(s, first, targets[..n], input) + if v.kind == Fail then [Reason(targets[n], v)] else []
  }

  function Decide(blocks: seq<string>): GateDecision {
    if blocks == [] then Land else Block(Join(blocks, "; "))
  }

  // ---- events ----

  /** A new world and the events to append to the queue. */
  datatype Step = Step(world: World, kids: seq<HostEvent>)

  function ChildOf(parent: HostEvent, id: string, eventKind: string): HostEvent {
    HostEvent(if eventKind == "" then "ext:" + id else "ext:" + id + ":" + eventKind,
              parent.taskId, parent.runId, "", "", Cycle.Descend(parent.origin, id))
  }

  function EmitOne(s: Settings, w: World, id: string, parent: HostEvent, a: Action): Step {
    match a
    case EmitEvent(eventKind) =>
      var now := s.outside.clock(|w.emits|);
      var child := ChildOf(parent, id, eventKind);
      var w' := w.(rate := Cycle.Charged(s.cycle, w.rate, id, now));
      if Cycle.Allowed(s.cycle, w.rate, id, now) then
        Step(w'.(emits := w.emits + [Emission(Cycle.Call(id, now), Some(child))]), [child])
      else
        Step(w'.(emits := w.emits + [Emission(Cycle.Call(id, now), None)]), [])
    case Notify(_) => Step(w, [])
    case NoAction => Step(w, [])
  }

  function EmitAll(s: Settings, w: World, id: string, parent: HostEvent, actions: seq<Action>): Step {
    if actions == [] then Step(w, [])
    else
      var n := |actions| - 1;
      var before := EmitAll(s, w, id, parent, actions[..n]);
      var last := EmitOne(s, before.world, id, parent, actions[n]);
      Step(last.world, before.kids + last.kids)
  }

  /** Deliver one event to one extension, if the cycle guard lets it through. */
  function React(s: Settings, w: World, t: Target, e: HostEvent): Step {
    if Cycle.Admitted(s.cycle, t.id, e.origin) != Cycle.Admit then Step(w, [])
    else
      var view := ToExtEvent(e);
      var result := s.outside.react(|w.log|, t.sha, view);
      var w' := w.(log := w.log + [Reaction(t.id, t.sha, e, view)]);
      match result
      case Ok(actions) => EmitAll(s, Succeeded(w', t.id), t.id, e, actions)
      case Err(fault) => Step(Faulted(s, w', t.id, fault), [])
  }

  function Deliver(s: Settings, w: World, targets: seq<Target>, e: HostEvent): Step {
    if targets == [] then Step(w, [])
    else
      var n := |targets| - 1;
      var before := Deliver(s, w, targets[..n], e);
      var last := React(s, before.world, targets[n], e);
      Step(last.world, before.kids + last.kids)
  }

  /** The world after some turns of the worklist, how many events it took, and those it left. */
  datatype Drained = Drained(world: World, processed: nat, rest: seq<HostEvent>)

  /** Work the queue off, at most `left` more events. */
  function Drain(s: Settings, w: World, targets: seq<Target>, queue: seq<HostEvent>, left: nat): Drained
    decreases left
  {
    if queue == [] || left == 0 then Drained(w, 0, queue)
    else
      var d := Deliver(s, w, targets, queue[0]);
      var later := Drain(s, d.world, targets, queue[1..] + d.kids, left - 1);
      later.(processed := later.processed + 1)
  }

  /** A whole event call under a ceiling on the events it takes; nothing is queued when nothing is to
      be called. */
  function EventRun(s: Settings, w: World, e: HostEvent, ceiling: nat): Drained {
    var targets := DispatchSet(w, EVENT_REACTION);
    if targets == [] then Drained(w, 0, []) else Drain(s, w, targets, [e], ceiling)
  }

  class Dispatcher {
    const settings: Settings
    const registry: Registry
    const breaker: CircuitBreaker
    const guard: Cycle.CycleGuard
    /** The alert sink. */
    var alerts: seq<Alert>
    /** The guest calls made so far. */
    var log: seq<Invocation>
    /** The emit decisions taken so far. */
    var emits: seq<Emission>

    ghost predicate Valid()
      reads this, registry
    {
      registry.Valid() && breaker.threshold == settings.threshold && guard.cfg == settings.cycle
    }

    ghost function Now(): World
      reads this, registry, breaker, guard
    {
      World(registry.order, breaker.state, guard.rate, alerts, log, emits)
    }

    constructor (settings: Settings, registry: Registry, breaker: CircuitBreaker, guard: Cycle.CycleGuard)
      requires registry.Valid() && breaker.threshold == settings.threshold && guard.cfg == settings.cycle
      ensures Valid() && Now() == World(registry.order, breaker.state, guard.rate, [], [], [])
      ensures this.settings == settings
    {
      this.settings, this.registry, this.breaker, this.guard := settings, registry, breaker, guard;
      alerts, log, emits := [], [], [];
    }

    method FindTargets(i: string) returns (targets: seq<Target>)
      requires Valid()
      ensures targets == DispatchSet(Now(), i)
    {
      hide DispatchList, IdIndex, ExportIndex, DistinctIds;
      var records := registry.FindByExport(i);
      targets := [];
      for k := 0 to |records|
        invariant targets == Targets(records[..k], breaker.state)
      {
        assert records[..k + 1][..k] == records[..k];
        if !IsTripped(breaker.state, records[k].id) {
          targets := targets + [Target(records[k].id, records[k].wasmSha256)];
        }
      }
      assert records[..|records|] == records;
    }

    /** Disable the extension, then send the alert. */
    method Trip(a: Alert)
      requires Valid()
      modifies this, registry
      ensures Valid() && Now() == Tripped(old(Now()), a) && log == old(log)
    {
      var _ := registry.SetEnabled(a.extId, false);
      alerts := alerts + [a];
    }

    method Fault(id: string, reason: string)
      requires Valid()
      modifies this, registry, breaker
      ensures Valid() && Now() == Faulted(settings, old(Now()), id, reason) && log == old(log)
    {
      var alert := breaker.RecordFault(id, reason);
      if alert.Some? {
        Trip(alert.value);
      }
    }

    /** Run one gate and feed the breaker. */
    method EvaluateGate(t: Target, input: GateInput) returns (verdict: Verdict)
      requires Valid()
      modifies this, registry, breaker
      ensures Valid() && Now() == GateOne(settings, old(Now()), t, input)
      ensures verdict == VerdictAt(settings, |old(log)|, t, 0, input)
      ensures |log| == |old(log)| + 1
    {
      var result := settings.outside.gate(|log|, t.sha, input);
      log := log + [GateCall(t.id, t.sha, input)];
      verdict := GateVerdictFailClosed(result);
      if result.Err? {
        Fault(t.id, verdict.message);
      } else {
        breaker.RecordSuccess(t.id);
      }
    }

    method RunGateChecks(input: GateInput) returns (decision: GateDecision)
      requires Valid()
      modifies this, registry, breaker
      ensures Valid()
      ensures var w := old(Now()); var targets := DispatchSet(w, GATE_CHECK);
              Now() == GateRun(settings, w, targets, input)
              && decision == Decide(Blocks(settings, |w.log|, targets, input))
    {
      hide GateOne, DispatchSet;
      var targets := FindTargets(GATE_CHECK);
      var blocks: seq<string> := [];
      for k := 0 to |targets|
        invariant Valid() && |log| == |old(log)| + k
        invariant Now() == GateRun(settings, old(Now()), targets[..k], input)
        invariant blocks == Blocks(settings, |old(log)|, targets[..k], input)
      {
        assert targets[..k + 1][..k] == targets[..k];
        var t := targets[k];
        var verdict := EvaluateGate(t, input);
        assert verdict == VerdictAt(settings, |old(log)|, t, k, input);
        if verdict.kind == Fail {
          blocks := blocks + [Reason(t, verdict)];
        }
      }
      assert targets[..|targets|] == targets;
      if blocks == [] {
        decision := Land;
      } else {
        decision := Block(Join(blocks, "; "));
      }
    }

    method EnqueueEmitted(id: string, parent: HostEvent, actions: seq<Action>, queue: seq<HostEvent>)
      returns (longer: seq<HostEvent>)
      requires Valid()
      modifies this, guard
      ensures Valid()
      ensures var d := EmitAll(settings, old(Now()), id, parent, actions);
              Now() == d.world && longer == queue + d.kids
      ensures log == old(log)
    {
      hide IdIndex, ExportIndex, DistinctIds;
      longer := queue;
      for k := 0 to |actions|
        invariant Valid() && log == old(log)
        invariant var d := EmitAll(settings, old(Now()), id, parent, actions[..k]);
                  Now() == d.world && longer == queue + d.kids
      {
        assert actions[..k + 1][..k] == actions[..k];
        match actions[k] {
          case EmitEvent(eventKind) =>
            var now := settings.outside.clock(|emits|);
            var ok := guard.AllowEmitAt(id, now);
            if ok {
              var child := ChildOf(parent, id, eventKind);
              longer := longer + [child];
              emits := emits + [Emission(Cycle.Call(id, now), Some(child))];
            } else {
              emits := emits + [Emission(Cycle.Call(id, now), None)];
            }
          case Notify(_) =>
          case NoAction =>
        }
      }
      assert actions[..|actions|] == actions;
    }

    /** Deliver one event to one extension. */
    method DeliverTo(t: Target, evt: HostEvent, queue: seq<HostEvent>)
      returns (longer: seq<HostEvent>, admitted: bool)
      requires Valid()
      modifies this, registry, breaker, guard
      ensures Valid() && |log| == |old(log)| + (if admitted then 1 else 0)
      ensures var d := React(settings, old(Now()), t, evt); Now() == d.world && longer == queue + d.kids
    {
      longer := queue;
      admitted := Cycle.Admitted(settings.cycle, t.id, evt.origin) == Cycle.Admit;
      if admitted {
        var view := ToExtEvent(evt);
        var result := settings.outside.react(|log|, t.sha, view);
        log := log + [Reaction(t.id, t.sha, evt, view)];
        match result {
          case Ok(actions) =>
            breaker.RecordSuccess(t.id);
            longer := EnqueueEmitted(t.id, evt, actions, queue);
          case Err(fault) =>
            Fault(t.id, fault);
        }
      }
    }

    /** Deliver one event to every target in turn. */
    method DeliverToAll(targets: seq<Target>, evt: HostEvent, queue: seq<HostEvent>)
      returns (longer: seq<HostEvent>, invoked: nat)
      requires Valid()
      modifies this, registry, breaker, guard
      ensures Valid() && |log| == |old(log)| + invoked
      ensures var d := Deliver(settings, old(Now()), targets, evt); Now() == d.world && longer == queue + d.kids
    {
      hide React, IdIndex, ExportIndex, DistinctIds;
      longer, invoked := queue, 0;
      for k := 0 to |targets|
        invariant Valid() && |log| == |old(log)| + invoked
        invariant Now() == Deliver(settings, old(Now()), targets[..k], evt).world
        invariant longer == queue + Deliver(settings, old(Now()), targets[..k], evt).kids
      {
        assert targets[..k + 1][..k] == targets[..k];
        var admitted;
        longer, admitted := DeliverTo(targets[k], evt, longer);
        if admitted {
          invoked := invoked + 1;
        }
      }
      assert targets[..|targets|] == targets;
    }

    method DispatchEvent(event: HostEvent) returns (invoked: nat)
      requires Valid()
      modifies this, registry, breaker, guard
      ensures Valid()
      ensures Now() == EventRun(settings, old(Now()), event, 256).world
      ensures |log| == |old(log)| + invoked
    {
      hide Deliver, DispatchSet, IdIndex, ExportIndex, DistinctIds;
      invoked := 0;
      var targets := FindTargets(EVENT_REACTION);
      if targets == [] {
        return;
      }
      var queue, processed := [event], 0;
      while queue != []
        invariant Valid() && |log| == |old(log)| + invoked
        invariant 0 <= processed <= MAX_EVENTS_PER_DISPATCH
        invariant Drain(settings, Now(), targets, queue, MAX_EVENTS_PER_DISPATCH - processed).world
               == EventRun(settings, old(Now()), event, MAX_EVENTS_PER_DISPATCH).world
        decreases MAX_EVENTS_PER_DISPATCH - processed
      {
        var evt := queue[0];
        if processed + 1 > MAX_EVENTS_PER_DISPATCH {
          break;
        }
        var admitted;
        queue, admitted := DeliverToAll(targets, evt, queue[1..]);
        invoked := invoked + admitted;
        processed := processed + 1;
      }
    }
  }
}
