/** The event worklist: it terminates by itself, breadth first, and never re-enters too deep. */
module DispatchWorklist {
  import opened Wrappers
  import opened Dispatch
  import Cycle

  predicate IsTarget(targets: seq<Target>, id: string) {
    exists k :: 0 <= k < |targets| && targets[k].id == id
  }

  function DepthOf(e: HostEvent): nat {
    e.origin.depth
  }

  /** An event some target emitted in reaction to `parent`. */
  ghost predicate IsChild(s: Settings, targets: seq<Target>, parent: HostEvent, e: HostEvent) {
    DepthOf(parent) < s.cycle.maxDepth
    && DepthOf(e) == DepthOf(parent) + 1
    && e.origin.origin.Some? && IsTarget(targets, e.origin.origin.value)
    && OfTask(parent, e) && e.fromStatus == "" && e.toStatus == ""
  }

  /** The events concern the same task and run. */
  predicate OfTask(a: HostEvent, b: HostEvent) {
    a.taskId == b.taskId && a.runId == b.runId
  }

  ghost predicate AllChildren(s: Settings, targets: seq<Target>, parent: HostEvent, kids: seq<HostEvent>) {
    forall e :: e in kids ==> IsChild(s, targets, parent, e)
  }

  lemma {:induction false} EmitAllChildren(s: Settings, w: World, targets: seq<Target>, id: string,
                                           parent: HostEvent, actions: seq<Action>)
    requires s.cycle.maxDepth <= Cycle.U32_MAX && DepthOf(parent) < s.cycle.maxDepth && IsTarget(targets, id)
    ensures AllChildren(s, targets, parent, EmitAll(s, w, id, parent, actions).kids)
  {
    if actions != [] {
      EmitAllChildren(s, w, targets, id, parent, actions[..|actions| - 1]);
    }
  }

  /** `saturating_add` never saturates on a delivered event: every child is exactly one deeper. */
  lemma {:induction false} DeliverChildren(s: Settings, w: World, targets: seq<Target>, n: nat, e: HostEvent)
    requires s.cycle.maxDepth <= Cycle.U32_MAX && n <= |targets|
    ensures AllChildren(s, targets, e, Deliver(s, w, targets[..n], e).kids)
    decreases n
  {
    if n > 0 {
      var t := targets[n - 1];
      assert targets[..n][..n - 1] == targets[..n - 1];
      DeliverChildren(s, w, targets, n - 1, e);
      var before := Deliver(s, w, targets[..n - 1], e).world;
      var result := s.outside.react(|before.log|, t.sha, ToExtEvent(e));
      if Cycle.Admitted(s.cycle, t.id, e.origin) == Cycle.Admit && result.Ok? {
        var w' := Succeeded(before.(log := before.log + [Reaction(t.id, t.sha, e, ToExtEvent(e))]), t.id);
        EmitAllChildren(s, w', targets, t.id, e, result.value);
      }
    }
  }

  // ---- the shape of the queue ----

  /** Depths never decrease front to back and differ by at most one; a second level exists only
      below the depth ceiling. */
  ghost predicate Layered(cfg: Cycle.CycleConfig, queue: seq<HostEvent>) {
    forall i, j :: 0 <= i <= j < |queue| ==>
      DepthOf(queue[i]) <= DepthOf(queue[j]) <= DepthOf(queue[0]) + 1
      && (DepthOf(queue[j]) > DepthOf(queue[0]) ==> DepthOf(queue[0]) < cfg.maxDepth)
  }

  function LevelsLeft(cfg: Cycle.CycleConfig, queue: seq<HostEvent>): nat {
    if queue == [] then 0
    else 1 + if DepthOf(queue[0]) < cfg.maxDepth then cfg.maxDepth - DepthOf(queue[0]) else 0
  }

  /** How many events have a given depth. */
  function AtDepth(queue: seq<HostEvent>, d: nat): nat {
    if queue == [] then 0 else (if DepthOf(queue[0]) == d then 1 else 0) + AtDepth(queue[1..], d)
  }

  function AtFront(queue: seq<HostEvent>): nat {
    if queue == [] then 0 else AtDepth(queue, DepthOf(queue[0]))
  }

  lemma {:induction false} AtDepthConcat(a: seq<HostEvent>, b: seq<HostEvent>, d: nat)
    ensures AtDepth(a + b, d) == AtDepth(a, d) + AtDepth(b, d)
  {
    if a == [] {
      assert a + b == b;
    } else {
      assert (a + b)[1..] == a[1..] + b;
      AtDepthConcat(a[1..], b, d);
    }
  }

  lemma {:induction false} NoneAtDepth(a: seq<HostEvent>, d: nat)
    requires forall e :: e in a ==> DepthOf(e) != d
    ensures AtDepth(a, d) == 0
  {
    if a != [] {
      NoneAtDepth(a[1..], d);
    }
  }

  lemma NextDepths(s: Settings, targets: seq<Target>, queue: seq<HostEvent>, kids: seq<HostEvent>)
    requires Layered(s.cycle, queue) && queue != [] && AllChildren(s, targets, queue[0], kids)
    ensures var next, d := queue[1..] + kids, DepthOf(queue[0]);
            forall j :: 0 <= j < |next| ==>
              d <= DepthOf(next[j]) <= d + 1 && (DepthOf(next[j]) > d ==> d < s.cycle.maxDepth)
    ensures var next := queue[1..] + kids;
            forall i, j :: 0 <= i <= j < |next| ==> DepthOf(next[i]) <= DepthOf(next[j])
  {
    hide DepthOf;
    var next := queue[1..] + kids;
    forall j | 0 <= j < |next|
      ensures DepthOf(queue[0]) <= DepthOf(next[j]) <= DepthOf(queue[0]) + 1
              && (DepthOf(next[j]) > DepthOf(queue[0]) ==> DepthOf(queue[0]) < s.cycle.maxDepth)
      ensures forall i :: 0 <= i <= j ==> DepthOf(next[i]) <= DepthOf(next[j])
    {
      if j < |queue| - 1 {
        assert forall i :: 0 <= i <= j ==> next[i] == queue[i + 1];
      } else {
        assert next[j] in kids;
        forall i | 0 <= i <= j ensures DepthOf(next[i]) <= DepthOf(next[j]) {
          assert if i < |queue| - 1 then next[i] == queue[i + 1] else next[i] in kids;
        }
      }
    }
  }

  /** One turn of the worklist keeps the layering and strictly lowers (levels left, events at the
      front level). */
  lemma TurnDescends(s: Settings, targets: seq<Target>, queue: seq<HostEvent>, kids: seq<HostEvent>)
    requires Layered(s.cycle, queue) && queue != [] && AllChildren(s, targets, queue[0], kids)
    ensures var next := queue[1..] + kids;
            Layered(s.cycle, next)
            && (LevelsLeft(s.cycle, next) < LevelsLeft(s.cycle, queue)
                || (LevelsLeft(s.cycle, next) == LevelsLeft(s.cycle, queue) && AtFront(next) < AtFront(queue)))
  {
    NextDepths(s, targets, queue, kids);
    var next, d := queue[1..] + kids, DepthOf(queue[0]);
    if next != [] && DepthOf(next[0]) == d {
      AtDepthConcat(queue[1..], kids, d);
      NoneAtDepth(kids, d);
    }
  }

  /** The worklist without its ceiling.  That this is a total function is the termination proof. */
  function DrainAll(s: Settings, w: World, targets: seq<Target>, queue: seq<HostEvent>): Drained
    requires s.cycle.maxDepth <= Cycle.U32_MAX && Layered(s.cycle, queue)
    decreases LevelsLeft(s.cycle, queue), AtFront(queue)
  {
    if queue == [] then Drained(w, 0, [])
    else
      var d := Deliver(s, w, targets, queue[0]);
      assert AllChildren(s, targets, queue[0], d.kids) by {
        assert targets[..|targets|] == targets;
        DeliverChildren(s, w, targets, |targets|, queue[0]);
      }
      TurnDescends(s, targets, queue, d.kids);
      var later := DrainAll(s, d.world, targets, queue[1..] + d.kids);
      later.(processed := later.processed + 1)
  }

  /** The ceiling only ever cuts a run short: it leaves nothing exactly when the unbounded run
      fits, and then both agree. */
  lemma {:induction false} CeilingIsBackstop(s: Settings, w: World, targets: seq<Target>,
                                             queue: seq<HostEvent>, left: nat)
    requires s.cycle.maxDepth <= Cycle.U32_MAX && Layered(s.cycle, queue)
    ensures Drain(s, w, targets, queue, left).rest == []
            <==> DrainAll(s, w, targets, queue).processed <= left
    ensures DrainAll(s, w, targets, queue).processed <= left ==>
              Drain(s, w, targets, queue, left) == DrainAll(s, w, targets, queue)
    decreases left
  {
    if queue != [] && left > 0 {
      var d := Deliver(s, w, targets, queue[0]);
      assert targets[..|targets|] == targets;
      DeliverChildren(s, w, targets, |targets|, queue[0]);
      TurnDescends(s, targets, queue, d.kids);
      CeilingIsBackstop(s, d.world, targets, queue[1..] + d.kids, left - 1);
    }
  }

  // ---- which deliveries reach a guest ----

  /** The guest is told what the event says, its emitter by name, the host's by an empty one. */
  predicate Tells(view: ExtEvent, e: HostEvent) {
    view.kind == e.kind && view.taskId == e.taskId && view.runId == e.runId
    && view.fromStatus == e.fromStatus && view.toStatus == e.toStatus && view.depth == e.origin.depth
    && (if e.origin.origin.Some? then view.origin == e.origin.origin.value else view.origin == "")
  }

  /** A reaction the cycle guard may let through: a target of this call, below both depth bounds, told
      what the event says. */
  predicate Lawful(s: Settings, targets: seq<Target>, i: Invocation) {
    i.Reaction? && IsTarget(targets, i.id) && Tells(i.view, i.event)
    && DepthOf(i.event) < s.cycle.maxDepth
    && (i.event.origin.origin == Some(i.id) ==> DepthOf(i.event) < s.cycle.maxSelfReentry)
  }

  ghost predicate LawfulSince(s: Settings, targets: seq<Target>, before: seq<Invocation>, after: seq<Invocation>) {
    before <= after && forall k :: |before| <= k < |after| ==> Lawful(s, targets, after[k])
  }

  lemma {:induction false} EmitAllKeepsLog(s: Settings, w: World, id: string, parent: HostEvent, actions: seq<Action>)
    ensures var w' := EmitAll(s, w, id, parent, actions).world;
            w'.log == w.log && w'.breaker == w.breaker && w'.alerts == w.alerts && w'.order == w.order
  {
    if actions != [] {
      EmitAllKeepsLog(s, w, id, parent, actions[..|actions| - 1]);
    }
  }

  lemma ReactLog(s: Settings, w: World, t: Target, e: HostEvent)
    ensures React(s, w, t, e).world.log
         == w.log + if Cycle.Admitted(s.cycle, t.id, e.origin) == Cycle.Admit
                    then [Reaction(t.id, t.sha, e, ToExtEvent(e))] else []
  {
    var result := s.outside.react(|w.log|, t.sha, ToExtEvent(e));
    var w' := w.(log := w.log + [Reaction(t.id, t.sha, e, ToExtEvent(e))]);
    if result.Ok? {
      EmitAllKeepsLog(s, Succeeded(w', t.id), t.id, e, result.value);
    }
  }

  /** What one event causes, exactly: a call to each target the two depth bounds allow, in order. */
  function LawfulCalls(s: Settings, targets: seq<Target>, e: HostEvent): seq<Invocation> {
    if targets == [] then []
    else
      var n := |targets| - 1;
      var call := Reaction(targets[n].id, targets[n].sha, e, ToExtEvent(e));
      LawfulCalls(s, targets[..n], e)
      + if DepthOf(e) < s.cycle.maxDepth
           && (e.origin.origin == Some(targets[n].id) ==> DepthOf(e) < s.cycle.maxSelfReentry)
        then [call] else []
  }

  /** The depth bounds let the event through to this target. */
  predicate Reaches(s: Settings, t: Target, e: HostEvent) {
    DepthOf(e) < s.cycle.maxDepth && (e.origin.origin == Some(t.id) ==> DepthOf(e) < s.cycle.maxSelfReentry)
  }

  /** The positions of those targets, ascending. */
  function Reached(s: Settings, targets: seq<Target>, e: HostEvent): (ks: seq<nat>)
    ensures forall k :: k in ks <==> 0 <= k < |targets| && Reaches(s, targets[k], e)
    ensures forall i, j :: 0 <= i < j < |ks| ==> ks[i] < ks[j]
  {
    if targets == [] then []
    else
      var n := |targets| - 1;
      var ks := Reached(s, targets[..n], e);
      assert forall k :: 0 <= k < n ==> targets[..n][k] == targets[k];
      assert forall i :: 0 <= i < |ks| ==> ks[i] in ks;
      ks + if Reaches(s, targets[n], e) then [n] else []
  }

  predicate IsCallOf(i: Invocation, t: Target, e: HostEvent) {
    i.Reaction? && i.id == t.id && i.sha == t.sha && i.event == e && Tells(i.view, e)
  }

  /** One call for each of them, in order, of the target's component, telling it the event. */
  lemma {:induction false} LawfulCallsInOrder(s: Settings, targets: seq<Target>, e: HostEvent)
    ensures var calls, ks := LawfulCalls(s, targets, e), Reached(s, targets, e);
            |calls| == |ks| && forall j :: 0 <= j < |ks| ==> ks[j] < |targets| && IsCallOf(calls[j], targets[ks[j]], e)
  {
    if targets != [] {
      var n := |targets| - 1;
      LawfulCallsInOrder(s, targets[..n], e);
      var ks := Reached(s, targets[..n], e);
      forall j | 0 <= j < |ks| ensures ks[j] < n && targets[..n][ks[j]] == targets[ks[j]] {
        assert ks[j] in ks;
      }
      assert Reached(s, targets, e) == ks + if Reaches(s, targets[n], e) then [n] else [];
    }
  }

  function AllLawfulCalls(s: Settings, targets: seq<Target>, events: seq<HostEvent>): seq<Invocation> {
    if events == [] then [] else LawfulCalls(s, targets, events[0]) + AllLawfulCalls(s, targets, events[1..])
  }

  lemma {:induction false} DeliverExactly(s: Settings, w: World, targets: seq<Target>, e: HostEvent)
    ensures Deliver(s, w, targets, e).world.log == w.log + LawfulCalls(s, targets, e)
  {
    if targets != [] {
      var n := |targets| - 1;
      DeliverExactly(s, w, targets[..n], e);
      ReactLog(s, Deliver(s, w, targets[..n], e).world, targets[n], e);
    }
  }

  /** The events put on the queue by some emit decisions. */
  function Queued(emits: seq<Emission>): seq<HostEvent> {
    if emits == [] then []
    else
      var last := emits[|emits| - 1];
      Queued(emits[..|emits| - 1]) + if last.child.Some? then [last.child.value] else []
  }

  lemma {:induction false} QueuedConcat(a: seq<Emission>, b: seq<Emission>)
    ensures Queued(a + b) == Queued(a) + Queued(b)
    decreases b
  {
    if b == [] {
      assert a + b == a;
    } else {
      assert (a + b)[..|a + b| - 1] == a + b[..|b| - 1];
      QueuedConcat(a, b[..|b| - 1]);
    }
  }

  /** The rate table after some emit decisions, starting from `r`. */
  function RatesAfter(cfg: Cycle.CycleConfig, r: Cycle.Rates, emits: seq<Emission>): Cycle.Rates {
    if emits == [] then r
    else
      var n := |emits| - 1;
      Cycle.Charged(cfg, RatesAfter(cfg, r, emits[..n]), emits[n].call.id, emits[n].call.now)
  }

  /** Decision number `k` of these is the limiter's, which started them with table `r` at clock
      reading `from`; when it allows, an event of that extension is queued, otherwise none. */
  ghost predicate DecidedRight(s: Settings, r: Cycle.Rates, from: nat, emits: seq<Emission>, k: nat)
    requires k < |emits|
  {
    var e := emits[k];
    e.call.now == s.outside.clock(from + k)
    && (e.child.Some? <==> Cycle.Allowed(s.cycle, RatesAfter(s.cycle, r, emits[..k]), e.call.id, e.call.now))
    && (e.child.Some? ==> e.child.value.origin.origin == Some(e.call.id))
  }

  ghost predicate Decided(s: Settings, r: Cycle.Rates, from: nat, emits: seq<Emission>) {
    forall k :: 0 <= k < |emits| ==> DecidedRight(s, r, from, emits, k)
  }

  lemma {:induction false} RatesConcat(cfg: Cycle.CycleConfig, r: Cycle.Rates, a: seq<Emission>, b: seq<Emission>)
    ensures RatesAfter(cfg, r, a + b) == RatesAfter(cfg, RatesAfter(cfg, r, a), b)
    decreases b
  {
    if b == [] {
      assert a + b == a;
    } else {
      assert (a + b)[..|a + b| - 1] == a + b[..|b| - 1];
      RatesConcat(cfg, r, a, b[..|b| - 1]);
    }
  }

  lemma DecidedConcat(s: Settings, r: Cycle.Rates, from: nat, a: seq<Emission>, b: seq<Emission>)
    requires Decided(s, r, from, a) && Decided(s, RatesAfter(s.cycle, r, a), from + |a|, b)
    ensures Decided(s, r, from, a + b)
  {
    hide Cycle.Allowed, RatesAfter;
    forall k | 0 <= k < |a + b| ensures DecidedRight(s, r, from, a + b, k) {
      if k < |a| {
        assert DecidedRight(s, r, from, a, k) && (a + b)[..k] == a[..k];
      } else {
        assert DecidedRight(s, RatesAfter(s.cycle, r, a), from + |a|, b, k - |a|);
        assert (a + b)[..k] == a + b[..k - |a|];
        RatesConcat(s.cycle, r, a, b[..k - |a|]);
      }
    }
  }

  ghost predicate AskedBy(targets: seq<Target>, emits: seq<Emission>) {
    forall k :: 0 <= k < |emits| ==> IsTarget(targets, emits[k].call.id)
  }

  /** `w'` comes after `w`; the emit decisions taken in between were asked for by targets and taken by
      the limiter, and `kids` are the events they queued. */
  ghost predicate Emits(s: Settings, targets: seq<Target>, w: World, w': World, kids: seq<HostEvent>) {
    w.emits <= w'.emits
    && var taken := w'.emits[|w.emits|..];
       kids == Queued(taken) && AskedBy(targets, taken)
       && Decided(s, w.rate, |w.emits|, taken) && w'.rate == RatesAfter(s.cycle, w.rate, taken)
  }

  lemma EmitsTrans(s: Settings, targets: seq<Target>, a: World, b: World, c: World,
                   first: seq<HostEvent>, second: seq<HostEvent>)
    requires Emits(s, targets, a, b, first) && Emits(s, targets, b, c, second)
    ensures Emits(s, targets, a, c, first + second)
  {
    hide Decided, IsTarget, RatesAfter, Queued;
    var x, y := b.emits[|a.emits|..], c.emits[|b.emits|..];
    assert c.emits[|a.emits|..] == x + y;
    QueuedConcat(x, y);
    RatesConcat(s.cycle, a.rate, x, y);
    DecidedConcat(s, a.rate, |a.emits|, x, y);
  }

  lemma EmitsNothing(s: Settings, targets: seq<Target>, w: World, w': World)
    requires w'.emits == w.emits && w'.rate == w.rate
    ensures Emits(s, targets, w, w', [])
  {
  }

  lemma EmitOneEmits(s: Settings, w: World, targets: seq<Target>, id: string, parent: HostEvent, a: Action)
    requires IsTarget(targets, id)
    ensures var d := EmitOne(s, w, id, parent, a); Emits(s, targets, w, d.world, d.kids)
  {
    hide IsTarget, Cycle.Allowed, Cycle.Charged;
    var d := EmitOne(s, w, id, parent, a);
    if a.EmitEvent? {
      var last := d.world.emits[|w.emits|];
      assert d.world.emits[|w.emits|..] == [last] && [last][..0] == [];
      assert RatesAfter(s.cycle, w.rate, [last][..0]) == w.rate && Queued([last][..0]) == [];
      assert DecidedRight(s, w.rate, |w.emits|, [last], 0);
      assert d.kids == [] + d.kids;
    }
  }

  lemma {:induction false} EmitAllEmits(s: Settings, w: World, targets: seq<Target>, id: string,
                                        parent: HostEvent, actions: seq<Action>)
    requires IsTarget(targets, id)
    ensures var d := EmitAll(s, w, id, parent, actions); Emits(s, targets, w, d.world, d.kids)
  {
    hide EmitOne, Emits, IsTarget;
    EmitsNothing(s, targets, w, w);
    if actions != [] {
      var n := |actions| - 1;
      var before := EmitAll(s, w, id, parent, actions[..n]);
      EmitAllEmits(s, w, targets, id, parent, actions[..n]);
      EmitOneEmits(s, before.world, targets, id, parent, actions[n]);
      var last := EmitOne(s, before.world, id, parent, actions[n]);
      EmitsTrans(s, targets, w, before.world, last.world, before.kids, last.kids);
    }
  }

  lemma ReactEmits(s: Settings, w: World, targets: seq<Target>, t: Target, e: HostEvent)
    requires IsTarget(targets, t.id)
    ensures var d := React(s, w, t, e); Emits(s, targets, w, d.world, d.kids)
  {
    hide Emits, EmitAll, IsTarget;
    var w' := w.(log := w.log + [Reaction(t.id, t.sha, e, ToExtEvent(e))]);
    var result := s.outside.react(|w.log|, t.sha, ToExtEvent(e));
    match result {
      case Ok(actions) =>
        EmitAllEmits(s, Succeeded(w', t.id), targets, t.id, e, actions);
        EmitsNothing(s, targets, w, Succeeded(w', t.id));
        var d := EmitAll(s, Succeeded(w', t.id), t.id, e, actions);
        EmitsTrans(s, targets, w, Succeeded(w', t.id), d.world, [], d.kids);
        assert [] + d.kids == d.kids;
      case Err(fault) => EmitsNothing(s, targets, w, Faulted(s, w', t.id, fault));
    }
    EmitsNothing(s, targets, w, w);
  }

  lemma {:induction false} DeliverEmits(s: Settings, w: World, targets: seq<Target>, n: nat, e: HostEvent)
    requires n <= |targets|
    ensures var d := Deliver(s, w, targets[..n], e); Emits(s, targets, w, d.world, d.kids)
    decreases n
  {
    hide React, Emits;
    EmitsNothing(s, targets, w, w);
    if n > 0 {
      var t := targets[n - 1];
      assert targets[..n][..n - 1] == targets[..n - 1];
      var before := Deliver(s, w, targets[..n - 1], e);
      DeliverEmits(s, w, targets, n - 1, e);
      ReactEmits(s, before.world, targets, t, e);
      var last := React(s, before.world, t, e);
      EmitsTrans(s, targets, w, before.world, last.world, before.kids, last.kids);
    }
  }

  /** The events of the queue, then those of the emit decisions taken since `w`. */
  ghost function EverQueued(w: World, queue: seq<HostEvent>, w': World): seq<HostEvent>
    requires w.emits <= w'.emits
  {
    queue + Queued(w'.emits[|w.emits|..])
  }

  /** First in, first out: of all events ever queued (those at the start, then those of the emit
      decisions taken since) the first `processed` caused exactly their lawful calls, in order, and
      the others are left. */
  ghost predicate InOrder(s: Settings, w: World, targets: seq<Target>, queue: seq<HostEvent>, d: Drained) {
    w.emits <= d.world.emits
    && Emits(s, targets, w, d.world, Queued(d.world.emits[|w.emits|..]))
    && var all := EverQueued(w, queue, d.world);
       d.processed <= |all| && d.rest == all[d.processed..]
       && d.world.log == w.log + AllLawfulCalls(s, targets, all[..d.processed])
  }

  /** One turn in front of an orderly rest. */
  lemma InOrderTurn(s: Settings, w: World, targets: seq<Target>, queue: seq<HostEvent>, turn: Step, d: Drained)
    requires queue != [] && Emits(s, targets, w, turn.world, turn.kids)
    requires turn.world.log == w.log + LawfulCalls(s, targets, queue[0])
    requires InOrder(s, turn.world, targets, queue[1..] + turn.kids, d)
    ensures InOrder(s, w, targets, queue, d.(processed := d.processed + 1))
  {
    hide LawfulCalls, AllLawfulCalls, Emits;
    var kids := Queued(d.world.emits[|turn.world.emits|..]);
    EmitsTrans(s, targets, w, turn.world, d.world, turn.kids, kids);
    EmitsWhat(s, targets, w, d.world, turn.kids + kids);
    var later := EverQueued(turn.world, queue[1..] + turn.kids, d.world);
    assert EverQueued(w, queue, d.world) == [queue[0]] + later;
    var taken := later[..d.processed];
    assert ([queue[0]] + later)[..d.processed + 1] == [queue[0]] + taken;
    AllLawfulCallsFirst(s, targets, queue[0], taken);
    assert w.log + (LawfulCalls(s, targets, queue[0]) + AllLawfulCalls(s, targets, taken)) == d.world.log;
  }

  lemma EmitsWhat(s: Settings, targets: seq<Target>, w: World, w': World, kids: seq<HostEvent>)
    requires Emits(s, targets, w, w', kids)
    ensures w.emits <= w'.emits && Queued(w'.emits[|w.emits|..]) == kids
  {
  }

  lemma AllLawfulCallsFirst(s: Settings, targets: seq<Target>, e: HostEvent, events: seq<HostEvent>)
    ensures AllLawfulCalls(s, targets, [e] + events)
         == LawfulCalls(s, targets, e) + AllLawfulCalls(s, targets, events)
  {
  }

  lemma NothingInOrder(s: Settings, w: World, targets: seq<Target>, queue: seq<HostEvent>)
    ensures InOrder(s, w, targets, queue, Drained(w, 0, queue))
  {
  }

  lemma {:induction false} DrainInOrder(s: Settings, w: World, targets: seq<Target>, queue: seq<HostEvent>, left: nat)
    ensures InOrder(s, w, targets, queue, Drain(s, w, targets, queue, left))
    ensures var d := Drain(s, w, targets, queue, left);
            d.processed <= left && (d.rest != [] ==> d.processed == left)
    decreases left
  {
    hide Deliver, LawfulCalls, InOrder, AllLawfulCalls;
    if queue == [] || left == 0 {
      NothingInOrder(s, w, targets, queue);
    } else {
      var turn := Deliver(s, w, targets, queue[0]);
      assert targets[..|targets|] == targets;
      DeliverEmits(s, w, targets, |targets|, queue[0]);
      DeliverExactly(s, w, targets, queue[0]);
      DrainInOrder(s, turn.world, targets, queue[1..] + turn.kids, left - 1);
      InOrderTurn(s, w, targets, queue, turn, Drain(s, turn.world, targets, queue[1..] + turn.kids, left - 1));
    }
  }

  /** A whole event call, exactly. */
  lemma {:induction false} EventRunInOrder(s: Settings, w: World, e: HostEvent, ceiling: nat)
    requires DispatchSet(w, EVENT_REACTION) != []
    ensures InOrder(s, w, DispatchSet(w, EVENT_REACTION), [e], EventRun(s, w, e, ceiling))
    ensures var d := EventRun(s, w, e, ceiling);
            w.emits <= d.world.emits
            && d.processed <= ceiling
            && (d.rest != [] ==> d.processed == ceiling)
            && d.processed + |d.rest| == 1 + |Queued(d.world.emits[|w.emits|..])|
  {
    hide DispatchSet, AllLawfulCalls;
    DrainInOrder(s, w, DispatchSet(w, EVENT_REACTION), [e], ceiling);
  }

  // ---- bounds on the calls ----

  lemma {:induction false} LawfulCallsAre(s: Settings, targets: seq<Target>, n: nat, e: HostEvent)
    requires n <= |targets|
    ensures var calls := LawfulCalls(s, targets[..n], e);
            |calls| <= n
            && forall k :: 0 <= k < |calls| ==>
                 Lawful(s, targets, calls[k]) && calls[k].Reaction? && calls[k].event == e
    decreases n
  {
    if n > 0 {
      assert targets[..n][..n - 1] == targets[..n - 1];
      LawfulCallsAre(s, targets, n - 1, e);
    }
  }

  lemma OneMore(n: nat, e: nat)
    ensures (n + 1) * e == n * e + e
  {
  }

  /** Whatever the guests answer, a call makes at most one invocation per target for each event it
      processes, and only lawful ones. */
  lemma {:induction false} AllLawfulCallsAre(s: Settings, targets: seq<Target>, events: seq<HostEvent>)
    ensures var calls := AllLawfulCalls(s, targets, events);
            |calls| <= |events| * |targets|
            && forall k :: 0 <= k < |calls| ==>
                 Lawful(s, targets, calls[k]) && calls[k].Reaction? && calls[k].event in events
  {
    hide LawfulCalls, Lawful;
    if events != [] {
      AllLawfulCallsAre(s, targets, events[1..]);
      assert targets[..|targets|] == targets;
      LawfulCallsAre(s, targets, |targets|, events[0]);
      OneMore(|events[1..]|, |targets|);
    }
  }

  /** Every call of a run is lawful and hands over an event that was queued. */
  lemma EventRunCalls(s: Settings, w: World, e: HostEvent, ceiling: nat)
    requires DispatchSet(w, EVENT_REACTION) != []
    ensures var targets, d := DispatchSet(w, EVENT_REACTION), EventRun(s, w, e, ceiling);
            w.log <= d.world.log && w.emits <= d.world.emits
            && |d.world.log| <= |w.log| + d.processed * |targets|
            && forall k :: |w.log| <= k < |d.world.log| ==>
                 Lawful(s, targets, d.world.log[k]) && d.world.log[k].event in EverQueued(w, [e], d.world)
  {
    hide DispatchSet, Lawful, Drain, AllLawfulCalls, EverQueued;
    var targets, d := DispatchSet(w, EVENT_REACTION), EventRun(s, w, e, ceiling);
    EventRunInOrder(s, w, e, ceiling);
    var taken := EverQueued(w, [e], d.world)[..d.processed];
    AllLawfulCallsAre(s, targets, taken);
    forall k | |w.log| <= k < |d.world.log|
      ensures Lawful(s, targets, d.world.log[k]) && d.world.log[k].Reaction?
              && d.world.log[k].event in EverQueued(w, [e], d.world)
    {
      assert d.world.log[k] == AllLawfulCalls(s, targets, taken)[k - |w.log|];
    }
  }

  lemma {:induction false} EventRunLog(s: Settings, w: World, e: HostEvent, ceiling: nat)
    ensures var targets, d := DispatchSet(w, EVENT_REACTION), EventRun(s, w, e, ceiling);
            LawfulSince(s, targets, w.log, d.world.log)
            && |d.world.log| <= |w.log| + d.processed * |targets|
            && d.processed <= ceiling
  {
    hide DispatchSet, Lawful, Drain, EverQueued;
    if DispatchSet(w, EVENT_REACTION) != [] {
      EventRunCalls(s, w, e, ceiling);
      EventRunInOrder(s, w, e, ceiling);
    }
  }

  /** Only an emitted event carries an origin, and it sits below the root. */
  predicate Rooted(e: HostEvent) {
    e.origin.origin.Some? ==> DepthOf(e) >= 1
  }

  /** An event somewhere below `root`. */
  predicate Descendant(root: HostEvent, e: HostEvent) {
    Rooted(e) && OfTask(root, e) && e.fromStatus == "" && e.toStatus == ""
  }

  lemma {:induction false} DrainDescends(s: Settings, w: World, targets: seq<Target>, root: HostEvent,
                                         queue: seq<HostEvent>, left: nat)
    requires s.cycle.maxDepth <= Cycle.U32_MAX && forall e :: e in queue ==> OfTask(root, e)
    ensures var d := Drain(s, w, targets, queue, left);
            w.emits <= d.world.emits && forall e :: e in Queued(d.world.emits[|w.emits|..]) ==> Descendant(root, e)
    decreases left
  {
    hide Deliver, Descendant, Emits;
    if queue != [] && left > 0 {
      var turn := Deliver(s, w, targets, queue[0]);
      var d := Drain(s, w, targets, queue, left);
      assert targets[..|targets|] == targets;
      DeliverChildren(s, w, targets, |targets|, queue[0]);
      ChildrenDescend(s, targets, root, queue[0], turn.kids);
      DeliverEmits(s, w, targets, |targets|, queue[0]);
      EmitsWhat(s, targets, w, turn.world, turn.kids);
      DrainDescends(s, turn.world, targets, root, queue[1..] + turn.kids, left - 1);
      var first, later := turn.world.emits[|w.emits|..], d.world.emits[|turn.world.emits|..];
      assert d.world.emits[|w.emits|..] == first + later;
      QueuedConcat(first, later);
    }
  }

  lemma ChildrenDescend(s: Settings, targets: seq<Target>, root: HostEvent, parent: HostEvent, kids: seq<HostEvent>)
    requires AllChildren(s, targets, parent, kids) && OfTask(root, parent)
    ensures forall e :: e in kids ==> Descendant(root, e) && OfTask(root, e)
  {
  }

  /** Whatever guests are told in an event call is the event itself, or an event of the same task and
      run without a status change; and they are told what it says. */
  lemma {:induction false} EventRunTells(s: Settings, w: World, e: HostEvent, ceiling: nat)
    requires s.cycle.maxDepth <= Cycle.U32_MAX
    ensures var w' := EventRun(s, w, e, ceiling).world;
            w.log <= w'.log && forall k :: |w.log| <= k < |w'.log| ==>
              w'.log[k].Reaction? && Tells(w'.log[k].view, w'.log[k].event)
              && (w'.log[k].event == e || Descendant(e, w'.log[k].event))
  {
    hide DispatchSet, Drain, AllLawfulCalls, Descendant, Tells;
    var targets, d := DispatchSet(w, EVENT_REACTION), EventRun(s, w, e, ceiling);
    if targets != [] {
      EventRunCalls(s, w, e, ceiling);
      DrainDescends(s, w, targets, e, [e], ceiling);
    }
  }

  /** A call that hands an extension its own event does so below the self-reentry bound only. */
  predicate OwnEventShallow(s: Settings, i: Invocation) {
    i.Reaction? && (i.event.origin.origin == Some(i.id) ==> 1 <= DepthOf(i.event) < s.cycle.maxSelfReentry)
  }

  lemma LawfulIsShallow(s: Settings, targets: seq<Target>, i: Invocation)
    requires Lawful(s, targets, i) && Rooted(i.event)
    ensures OwnEventShallow(s, i)
  {
  }

  /** From a host event, an extension is given its own event only below the self-reentry bound; with
      the default bound of 1, never. */
  lemma {:induction false} NeverOwnEvent(s: Settings, w: World, e: HostEvent, ceiling: nat)
    requires s.cycle.maxDepth <= Cycle.U32_MAX && e.origin == Cycle.HOST
    ensures var w' := EventRun(s, w, e, ceiling).world;
            w.log <= w'.log && forall k :: |w.log| <= k < |w'.log| ==> OwnEventShallow(s, w'.log[k])
  {
    assert Rooted(e);
    hide DispatchSet, Drain, AllLawfulCalls, Lawful, Rooted, OwnEventShallow, Tells;
    var targets, d := DispatchSet(w, EVENT_REACTION), EventRun(s, w, e, ceiling);
    if targets != [] {
      EventRunCalls(s, w, e, ceiling);
      EventRunTells(s, w, e, ceiling);
      forall k | |w.log| <= k < |d.world.log| ensures OwnEventShallow(s, d.world.log[k]) {
        LawfulIsShallow(s, targets, d.world.log[k]);
      }
    }
  }

  // ---- events never outnumber the emit budgets ----

  predicate Member(ids: seq<string>, id: string) {
    exists k :: 0 <= k < |ids| && ids[k] == id
  }

  ghost predicate Distinct(ids: seq<string>) {
    forall i, j :: 0 <= i < j < |ids| ==> ids[i] != ids[j]
  }

  function CountOf(r: Cycle.Rates, id: string): nat {
    if id in r then r[id].count else 0
  }

  function Charges(r: Cycle.Rates, ids: seq<string>): nat {
    if ids == [] then 0 else CountOf(r, ids[0]) + Charges(r, ids[1..])
  }

  ghost predicate WithinBudget(s: Settings, r: Cycle.Rates) {
    forall id :: id in r ==> r[id].count <= s.cycle.emitsPerWindow
  }

  /** A decision that finds the extension's window over and opens the next. */
  predicate Rolls(cfg: Cycle.CycleConfig, r: Cycle.Rates, c: Cycle.Call) {
    c.id in r && Cycle.Elapsed(c.now, r[c.id].windowStart) >= cfg.window
  }

  /** How many of these decisions do. */
  function Rollovers(cfg: Cycle.CycleConfig, r: Cycle.Rates, emits: seq<Emission>): nat {
    if emits == [] then 0
    else
      var n := |emits| - 1;
      Rollovers(cfg, r, emits[..n]) + if Rolls(cfg, RatesAfter(cfg, r, emits[..n]), emits[n].call) then 1 else 0
  }

  /** The emissions that had been charged to the windows they end. */
  function Expired(cfg: Cycle.CycleConfig, r: Cycle.Rates, emits: seq<Emission>): nat {
    if emits == [] then 0
    else
      var n := |emits| - 1;
      var before, c := RatesAfter(cfg, r, emits[..n]), emits[n].call;
      Expired(cfg, r, emits[..n]) + if Rolls(cfg, before, c) then before[c.id].count else 0
  }

  lemma {:induction false} ChargesChange(r: Cycle.Rates, r': Cycle.Rates, ids: seq<string>, id: string)
    requires Distinct(ids) && forall x :: x != id ==> CountOf(r, x) == CountOf(r', x)
    ensures Charges(r', ids) == Charges(r, ids) + if Member(ids, id) then CountOf(r', id) - CountOf(r, id) else 0
  {
    if ids != [] {
      ChargesChange(r, r', ids[1..], id);
      assert Member(ids, id) <==> ids[0] == id || Member(ids[1..], id) by {
        if Member(ids[1..], id) {
          var k :| 0 <= k < |ids[1..]| && ids[1..][k] == id;
          assert ids[k + 1] == id;
        }
        if Member(ids, id) && ids[0] != id {
          var k :| 0 <= k < |ids| && ids[k] == id;
          assert ids[1..][k - 1] == id;
        }
      }
      assert Member(ids[1..], id) ==> ids[0] != id;
    }
  }

  lemma ChargedOnce(s: Settings, r: Cycle.Rates, ids: seq<string>, c: Cycle.Call)
    requires Distinct(ids) && Member(ids, c.id)
    ensures var r' := Cycle.Charged(s.cycle, r, c.id, c.now);
            Charges(r', ids) + (if Rolls(s.cycle, r, c) then CountOf(r, c.id) else 0)
            == Charges(r, ids) + if Cycle.Allowed(s.cycle, r, c.id, c.now) then 1 else 0
  {
    ChargesChange(r, Cycle.Charged(s.cycle, r, c.id, c.now), ids, c.id);
  }

  /** Every queued event is one emission charged to the table, in a window still open or expired. */
  lemma {:induction false} QueuedIsCharged(s: Settings, r: Cycle.Rates, from: nat, emits: seq<Emission>,
                                           ids: seq<string>)
    requires Decided(s, r, from, emits) && Distinct(ids)
    requires forall k :: 0 <= k < |emits| ==> Member(ids, emits[k].call.id)
    ensures |Queued(emits)| + Charges(r, ids)
         == Charges(RatesAfter(s.cycle, r, emits), ids) + Expired(s.cycle, r, emits)
    decreases emits
  {
    hide Charges, Member, Distinct, Rolls, Cycle.Allowed, Cycle.Charged;
    if emits != [] {
      var n := |emits| - 1;
      DecidedPrefix(s, r, from, emits, n);
      QueuedIsCharged(s, r, from, emits[..n], ids);
      assert DecidedRight(s, r, from, emits, n);
      ChargedOnce(s, RatesAfter(s.cycle, r, emits[..n]), ids, emits[n].call);
      RollsKnown(s.cycle, RatesAfter(s.cycle, r, emits[..n]), emits[n].call);
    }
  }

  lemma RollsKnown(cfg: Cycle.CycleConfig, r: Cycle.Rates, c: Cycle.Call)
    ensures Rolls(cfg, r, c) ==> c.id in r && CountOf(r, c.id) == r[c.id].count
  {
  }

  lemma DecidedPrefix(s: Settings, r: Cycle.Rates, from: nat, emits: seq<Emission>, n: nat)
    requires n <= |emits| && Decided(s, r, from, emits)
    ensures Decided(s, r, from, emits[..n])
  {
    hide RatesAfter, Cycle.Allowed;
    forall k | 0 <= k < n ensures DecidedRight(s, r, from, emits[..n], k) {
      assert DecidedRight(s, r, from, emits, k) && emits[..n][..k] == emits[..k];
    }
  }

  lemma ChargedWithinBudget(s: Settings, r: Cycle.Rates, c: Cycle.Call)
    requires WithinBudget(s, r)
    ensures WithinBudget(s, Cycle.Charged(s.cycle, r, c.id, c.now))
    ensures Rolls(s.cycle, r, c) ==> c.id in r && r[c.id].count <= s.cycle.emitsPerWindow
  {
  }

  /** An expired window held at most one budget. */
  lemma {:induction false} ExpiredBound(s: Settings, r: Cycle.Rates, emits: seq<Emission>)
    requires WithinBudget(s, r)
    ensures WithinBudget(s, RatesAfter(s.cycle, r, emits))
    ensures Expired(s.cycle, r, emits) <= Rollovers(s.cycle, r, emits) * s.cycle.emitsPerWindow
    decreases emits
  {
    hide WithinBudget, Cycle.Charged, Rolls;
    if emits != [] {
      var n := |emits| - 1;
      ExpiredBound(s, r, emits[..n]);
      ChargedWithinBudget(s, RatesAfter(s.cycle, r, emits[..n]), emits[n].call);
      OneMore(Rollovers(s.cycle, r, emits[..n]), s.cycle.emitsPerWindow);
    }
  }

  lemma {:induction false} ChargesBound(s: Settings, r: Cycle.Rates, ids: seq<string>)
    requires WithinBudget(s, r)
    ensures Charges(r, ids) <= |ids| * s.cycle.emitsPerWindow
  {
    if ids != [] {
      ChargesBound(s, r, ids[1..]);
      assert |ids| * s.cycle.emitsPerWindow == |ids[1..]| * s.cycle.emitsPerWindow + s.cycle.emitsPerWindow;
    }
  }

  ghost predicate Covers(ids: seq<string>, targets: seq<Target>) {
    Distinct(ids) && forall id :: IsTarget(targets, id) ==> Member(ids, id)
  }

  /** The emit decisions taken between two worlds. */
  ghost function Taken(w: World, w': World): seq<Emission>
    requires w.emits <= w'.emits
  {
    w'.emits[|w.emits|..]
  }

  /** Every event taken or left was queued at the start or is one charged emission. */
  lemma {:induction false} ProcessedIsCharged(s: Settings, w: World, ids: seq<string>, targets: seq<Target>,
                                              queue: seq<HostEvent>, left: nat)
    requires Covers(ids, targets)
    ensures var d := Drain(s, w, targets, queue, left);
            w.emits <= d.world.emits
            && d.processed + |d.rest| + Charges(w.rate, ids)
               == |queue| + Charges(d.world.rate, ids) + Expired(s.cycle, w.rate, Taken(w, d.world))
  {
    hide Charges, Expired, Drain, AllLawfulCalls, Decided, IsTarget, Member, Distinct, RatesAfter;
    DrainInOrder(s, w, targets, queue, left);
    QueuedIsCharged(s, w.rate, |w.emits|, Taken(w, Drain(s, w, targets, queue, left).world), ids);
  }

  /** The most events a call may put on its queue: the root, and one budget for every extension and
      for every window that rolls over during the call. */
  ghost function MostQueued(s: Settings, ids: seq<string>, rollovers: nat): nat {
    1 + (|ids| + rollovers) * s.cycle.emitsPerWindow
  }

  lemma DrainWork(s: Settings, w: World, ids: seq<string>, targets: seq<Target>, e: HostEvent, left: nat)
    requires WithinBudget(s, w.rate) && Covers(ids, targets)
    ensures var d := Drain(s, w, targets, [e], left);
            w.emits <= d.world.emits
            && d.processed + |d.rest| <= MostQueued(s, ids, Rollovers(s.cycle, w.rate, Taken(w, d.world)))
  {
    hide Charges, Expired, Rollovers, Drain, AllLawfulCalls, Decided, AskedBy, Covers, WithinBudget, RatesAfter, Queued;
    var d := Drain(s, w, targets, [e], left);
    ProcessedIsCharged(s, w, ids, targets, [e], left);
    DrainInOrder(s, w, targets, [e], left);
    ExpiredBound(s, w.rate, Taken(w, d.world));
    ChargesBound(s, d.world.rate, ids);
    var rolled, b := Rollovers(s.cycle, w.rate, Taken(w, d.world)), s.cycle.emitsPerWindow;
    assert (|ids| + rolled) * b == |ids| * b + rolled * b;
  }

  /** Whatever the clock does, k extensions put at most k budgets of further events on the queue, and
      one more for every window that rolls over during the call, whether the ceiling cuts in or
      not ... */
  lemma {:induction false} WorkBound(s: Settings, w: World, ids: seq<string>, e: HostEvent, ceiling: nat)
    requires WithinBudget(s, w.rate) && Covers(ids, DispatchSet(w, EVENT_REACTION))
    ensures var d := EventRun(s, w, e, ceiling);
            w.emits <= d.world.emits
            && d.processed + |d.rest| <= MostQueued(s, ids, Rollovers(s.cycle, w.rate, Taken(w, d.world)))
  {
    hide DispatchSet, Drain, Rollovers, Covers, WithinBudget;
    if DispatchSet(w, EVENT_REACTION) != [] {
      DrainWork(s, w, ids, DispatchSet(w, EVENT_REACTION), e, ceiling);
    }
  }

  /** ... so a call whose budgets stay within the ceiling leaves nothing. */
  lemma {:induction false} SmallCallsAreComplete(s: Settings, w: World, ids: seq<string>, e: HostEvent, ceiling: nat)
    requires WithinBudget(s, w.rate) && Covers(ids, DispatchSet(w, EVENT_REACTION))
    requires var d := EventRun(s, w, e, ceiling);
             w.emits <= d.world.emits
             && MostQueued(s, ids, Rollovers(s.cycle, w.rate, Taken(w, d.world))) <= ceiling
    ensures EventRun(s, w, e, ceiling).rest == []
  {
    hide DispatchSet, Drain, Rollovers, Covers, WithinBudget, InOrder;
    WorkBound(s, w, ids, e, ceiling);
    if DispatchSet(w, EVENT_REACTION) != [] {
      EventRunInOrder(s, w, e, ceiling);
    }
  }

  /** The worklist without its ceiling keeps the same bound. */
  lemma UnboundedWork(s: Settings, w: World, ids: seq<string>, targets: seq<Target>, e: HostEvent)
    requires s.cycle.maxDepth <= Cycle.U32_MAX && WithinBudget(s, w.rate) && Covers(ids, targets)
    requires Layered(s.cycle, [e])
    ensures var d := DrainAll(s, w, targets, [e]);
            w.emits <= d.world.emits
            && d.processed <= MostQueued(s, ids, Rollovers(s.cycle, w.rate, Taken(w, d.world)))
  {
    hide Drain, DrainAll, Rollovers, Covers, WithinBudget;
    var all := DrainAll(s, w, targets, [e]);
    CeilingIsBackstop(s, w, targets, [e], all.processed);
    DrainWork(s, w, ids, targets, e, all.processed);
  }

  // ---- no window rolls over in a quick call ----

  /** The windows of these extensions open at the start, and all readings of the clock in a call, lie
      within one window's length. */
  ghost predicate Quick(s: Settings, r: Cycle.Rates, ids: seq<string>, from: nat, to: nat) {
    (forall id, a :: Member(ids, id) && id in r && from <= a < to ==>
       Cycle.Elapsed(s.outside.clock(a), r[id].windowStart) < s.cycle.window)
    && forall a, b :: from <= a <= b < to ==>
         Cycle.Elapsed(s.outside.clock(b), s.outside.clock(a)) < s.cycle.window
  }

  /** Every open window was open at the start or opened at one of the readings since. */
  ghost predicate WindowsFrom(s: Settings, r: Cycle.Rates, from: nat, now: nat, r': Cycle.Rates) {
    forall id :: id in r' ==>
      (id in r && r[id].windowStart == r'[id].windowStart)
      || exists a :: from <= a < now && s.outside.clock(a) == r'[id].windowStart
  }

  lemma {:induction false} QuickNeverRolls(s: Settings, r: Cycle.Rates, ids: seq<string>, from: nat,
                                           emits: seq<Emission>, to: nat)
    requires Decided(s, r, from, emits) && from + |emits| <= to && Quick(s, r, ids, from, to)
    requires forall k :: 0 <= k < |emits| ==> Member(ids, emits[k].call.id)
    ensures Rollovers(s.cycle, r, emits) == 0
    ensures WindowsFrom(s, r, from, from + |emits|, RatesAfter(s.cycle, r, emits))
    decreases emits
  {
    hide Member;
    if emits != [] {
      var n := |emits| - 1;
      DecidedPrefix(s, r, from, emits, n);
      QuickNeverRolls(s, r, ids, from, emits[..n], to);
      assert DecidedRight(s, r, from, emits, n);
      assert s.outside.clock(from + n) == emits[n].call.now;
    }
  }

  /** In such a call k extensions queue at most k budgets of further events. */
  lemma {:induction false} QuickWorkBound(s: Settings, w: World, ids: seq<string>, e: HostEvent, ceiling: nat)
    requires WithinBudget(s, w.rate) && Covers(ids, DispatchSet(w, EVENT_REACTION))
    requires Quick(s, w.rate, ids, |w.emits|, |EventRun(s, w, e, ceiling).world.emits|)
    ensures var d := EventRun(s, w, e, ceiling);
            w.emits <= d.world.emits
            && Rollovers(s.cycle, w.rate, Taken(w, d.world)) == 0
            && d.processed + |d.rest| <= 1 + |ids| * s.cycle.emitsPerWindow
  {
    hide DispatchSet, Drain, WithinBudget, Quick, AllLawfulCalls, RatesAfter, Member, IsTarget, Distinct;
    var d := EventRun(s, w, e, ceiling);
    WorkBound(s, w, ids, e, ceiling);
    if DispatchSet(w, EVENT_REACTION) != [] {
      EventRunInOrder(s, w, e, ceiling);
      QuickNeverRolls(s, w.rate, ids, |w.emits|, Taken(w, d.world), |d.world.emits|);
    }
  }
}
