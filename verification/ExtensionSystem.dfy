/** The whole extension runtime: routes, gate calls, event calls, breaker resets and restarts of the
    daemon, interleaved in any order. */
module ExtensionSystem {
  import opened Wrappers
  import opened Breaker
  import opened Capabilities
  import opened Registries
  import opened Dispatch
  import opened DispatchWorklist
  import opened DispatchRecords
  import opened DispatchBreaker
  import opened Routes
  import Cycle

  /** The durable rows and bytes, the daemon's state with its records, and how many emit decisions
      had been taken when it last started. */
  datatype Sys = Sys(rows: map<string, Extension>, blobs: set<string>, world: World, booted: nat)

  /** `ResetBreaker` stands for the breaker's own reset, which no route offers: as the daemon is
      wired, only a restart ends a trip. */
  datatype Operation =
    | Install(body: InstallBody, storeOk: bool, blobOk: bool)
    | Delete(id: string, readOk: bool, writeOk: bool, blobOk: bool)
    | SetEnabled(id: string, enabled: bool, storeOk: bool)
    | SetGrants(id: string, caps: seq<string>, readOk: bool, writeOk: bool)
    | RunGate(input: GateInput)
    | RunEvent(event: HostEvent)
    | ResetBreaker(id: string)
    | Restart

  /** A daemon that starts over the rows and bytes it finds. */
  function Boot(rows: map<string, Extension>, blobs: set<string>): Sys {
    Sys(rows, blobs, World([], map[], map[], [], [], []), 0)
  }

  function StoresOf(y: Sys): Stores {
    Stores(y.rows, y.blobs, y.world.order)
  }

  function WithStores(y: Sys, st: Stores): Sys {
    y.(rows := st.rows, blobs := st.blobs, world := y.world.(order := st.order))
  }

  ghost function Apply(s: Settings, y: Sys, op: Operation): Sys {
    match op
    case Install(body, storeOk, blobOk) => WithStores(y, AfterInstall(StoresOf(y), body, storeOk, blobOk))
    case Delete(id, readOk, writeOk, blobOk) => WithStores(y, AfterDelete(StoresOf(y), id, readOk, writeOk, blobOk))
    case SetEnabled(id, enabled, storeOk) => WithStores(y, AfterSetEnabled(StoresOf(y), id, enabled, storeOk))
    case SetGrants(id, caps, readOk, writeOk) => WithStores(y, AfterSetGrants(StoresOf(y), id, caps, readOk, writeOk))
    case RunGate(input) => y.(world := GateCallRun(s, y.world, input))
    case RunEvent(event) => y.(world := EventRun(s, y.world, event, MAX_EVENTS_PER_DISPATCH).world)
    case ResetBreaker(id) => y.(world := y.world.(breaker := y.world.breaker - {id}))
    case Restart =>
      y.(world := y.world.(order := [], breaker := map[], rate := map[]), booted := |y.world.emits|)
  }

  ghost function Run(s: Settings, y: Sys, ops: seq<Operation>): Sys {
    if ops == [] then y
    else
      var n := |ops| - 1;
      Apply(s, Run(s, y, ops[..n]), ops[n])
  }

  // ---- the store and the registry stay in step ----

  ghost predicate Inv(s: Settings, y: Sys) {
    Coherent(StoresOf(y)) && WithinBudget(s, y.world.rate) && Recorded(s, y.world, y.booted)
  }

  lemma OnlyDisabledKeeps(st: Stores, order': seq<ExtensionRecord>)
    requires Coherent(st) && OnlyDisabled(st.order, order')
    ensures Coherent(st.(order := order'))
  {
  }

  lemma ApplyKeepsInv(s: Settings, y: Sys, op: Operation)
    requires Inv(s, y)
    ensures Inv(s, Apply(s, y, op))
  {
    var st, w' := StoresOf(y), Apply(s, y, op).world;
    RestartRecorded(s, y);
    SameRecord(s, y.world, w', y.booted);
    hide Coherent, AfterInstall, AfterDelete, AfterSetEnabled, AfterSetGrants, GateRun, EventRun;
    hide DispatchSet, Follows, Recorded, FeedsBreaker;
    match op {
      case Install(body, storeOk, blobOk) => InstallKeeps(st, body, storeOk, blobOk);
      case Delete(id, readOk, writeOk, blobOk) => DeleteKeeps(st, id, readOk, writeOk, blobOk);
      case SetEnabled(id, enabled, storeOk) => SetEnabledKeeps(st, id, enabled, storeOk);
      case SetGrants(id, caps, readOk, writeOk) => SetGrantsKeeps(st, id, caps, readOk, writeOk);
      case RunGate(input) =>
        GateRunKeeps(s, y.world, DispatchSet(y.world, GATE_CHECK), input);
        GateRunEmitsNothing(s, y.world, DispatchSet(y.world, GATE_CHECK), input);
        OnlyDisabledKeeps(st, w'.order);
      case RunEvent(event) =>
        EventRunKeeps(s, y.world, event, MAX_EVENTS_PER_DISPATCH);
        EventRunRecorded(s, y.world, event, MAX_EVENTS_PER_DISPATCH, y.booted);
        OnlyDisabledKeeps(st, w'.order);
      case ResetBreaker(id) =>
      case Restart =>
    }
  }

  lemma SameRecord(s: Settings, w: World, w': World, from: nat)
    requires Recorded(s, w, from)
    ensures w'.emits == w.emits && w'.rate == w.rate ==> Recorded(s, w', from)
  {
  }

  /** A fresh limiter has taken no decision yet, and an empty registry disagrees with nothing. */
  lemma RestartRecorded(s: Settings, y: Sys)
    ensures Inv(s, Apply(s, y, Restart))
  {
  }

  /** From any rows and bytes, after any operations whatever the guests, the clock and the store do:
      every registered extension has its row, row and record agree, a registered extension is
      enabled only if its row is, every live grant is lawful, and the limiter has taken every emit
      decision on record since the daemon last started. */
  lemma {:induction false} AlwaysInStep(s: Settings, rows: map<string, Extension>, blobs: set<string>,
                                        ops: seq<Operation>)
    ensures Inv(s, Run(s, Boot(rows, blobs), ops))
    decreases ops
  {
    if ops == [] {
      RestartRecorded(s, Boot(rows, blobs));
      assert Apply(s, Boot(rows, blobs), Restart) == Boot(rows, blobs);
    } else {
      hide Apply, Inv;
      var n := |ops| - 1;
      AlwaysInStep(s, rows, blobs, ops[..n]);
      ApplyKeepsInv(s, Run(s, Boot(rows, blobs), ops[..n]), ops[n]);
    }
  }

  /** Whatever happens, if the clock never goes back, the events that dispatch put on its queues for
      one extension since the daemon last started keep the rate bound in every interval one window
      long. */
  lemma EmissionsBounded(s: Settings, rows: map<string, Extension>, blobs: set<string>, ops: seq<Operation>,
                         id: string, t: nat)
    requires forall a, b :: 0 <= a <= b ==> s.outside.clock(a) <= s.outside.clock(b)
    ensures var y := Run(s, Boot(rows, blobs), ops);
            y.booted <= |y.world.emits|
            && QueuedBy(y.world.emits[y.booted..], id, t, t + s.cycle.window) <= Cycle.Bound(s.cycle)
  {
    AlwaysInStep(s, rows, blobs, ops);
    var y := Run(s, Boot(rows, blobs), ops);
    QueuedWithinBound(s, y.world, y.booted, id, t);
  }

  // ---- the breakers are those of the guest calls ----

  /** Whether an operation starts the breaker of `id` afresh. */
  predicate Resets(op: Operation, id: string) {
    op.Restart? || (op.ResetBreaker? && op.id == id)
  }

  /** How the guest calls of `id` since its last reset came out; true for a fault. */
  ghost function SinceReset(s: Settings, y: Sys, ops: seq<Operation>, id: string): seq<bool> {
    if ops == [] then []
    else
      var n := |ops| - 1;
      var before := Run(s, y, ops[..n]);
      if Resets(ops[n], id) then []
      else SinceReset(s, y, ops[..n], id) + Outcomes(s, Apply(s, before, ops[n]).world.log, |before.world.log|, id)
  }

  lemma ApplyFeeds(s: Settings, y: Sys, op: Operation, id: string, h: seq<bool>)
    requires 0 < s.threshold <= U32_MAX && Matches(y.world.breaker, id, h, s.threshold)
    ensures var y' := Apply(s, y, op);
            Matches(y'.world.breaker, id,
                    if Resets(op, id) then [] else h + Outcomes(s, y'.world.log, |y.world.log|, id), s.threshold)
  {
    hide GateRun, EventRun, AfterInstall, AfterDelete, AfterSetEnabled, AfterSetGrants, HasRun, DispatchSet;
    var y' := Apply(s, y, op);
    NoRunInNothing(s.threshold);
    if op.RunGate? {
      GateRunKeeps(s, y.world, DispatchSet(y.world, GATE_CHECK), op.input);
      assert FeedsBreaker(s, y.world, y'.world);
    } else if op.RunEvent? {
      EventRunKeeps(s, y.world, op.event, MAX_EVENTS_PER_DISPATCH);
      assert FeedsBreaker(s, y.world, y'.world);
    } else if !Resets(op, id) {
      assert h + Outcomes(s, y'.world.log, |y.world.log|, id) == h;
    }
  }

  /** After any operations, an extension is tripped exactly when its own guest calls since its last
      reset hold `threshold` faults in a row, and its counter is the current run of faults. */
  lemma {:induction false} TrippedIffFaultRun(s: Settings, rows: map<string, Extension>, blobs: set<string>,
                                              ops: seq<Operation>, id: string)
    requires 0 < s.threshold <= U32_MAX
    ensures var t, h := Run(s, Boot(rows, blobs), ops).world.breaker, SinceReset(s, Boot(rows, blobs), ops, id);
            (IsTripped(t, id) <==> HasRun(h, s.threshold)) && Consecutive(t, id) == Saturated(Streak(h))
    decreases ops
  {
    hide HasRun, Apply, Resets, Outcomes;
    NoRunInNothing(s.threshold);
    if ops != [] {
      var n := |ops| - 1;
      TrippedIffFaultRun(s, rows, blobs, ops[..n], id);
      var before := Run(s, Boot(rows, blobs), ops[..n]);
      ApplyFeeds(s, before, ops[n], id, SinceReset(s, Boot(rows, blobs), ops[..n], id));
    }
  }

  // ---- who is invoked ----

  ghost predicate NoCallsTo(id: string, before: seq<Invocation>, after: seq<Invocation>) {
    before <= after && forall k :: |before| <= k < |after| ==> after[k].id != id
  }

  /** The extension called was registered, enabled and not tripped, and exports the interface of the
      call. */
  ghost predicate WasEligible(w: World, call: Invocation) {
    var interface := if call.GateCall? then "gate-check" else "event-reaction";
    !IsTripped(w.breaker, call.id)
    && exists r :: r in w.order && r.id == call.id && r.enabled && interface in r.manifest.extensionPoints
  }

  /** Every invocation an operation makes goes to an extension that was eligible when the operation
      began. */
  lemma InvokedWereEligible(s: Settings, y: Sys, op: Operation)
    ensures var y' := Apply(s, y, op);
            y.world.log <= y'.world.log
            && forall k :: |y.world.log| <= k < |y'.world.log| ==> WasEligible(y.world, y'.world.log[k])
  {
    hide DispatchSet, GateRun, EventRun, IsTripped, IsTarget, Tells;
    var w, w' := y.world, Apply(s, y, op).world;
    if op.RunGate? {
      var targets := DispatchSet(w, GATE_CHECK);
      GateRunLog(s, w, targets, |targets|, op.input);
      assert targets[..|targets|] == targets;
      forall k | |w.log| <= k < |w'.log| ensures WasEligible(w, w'.log[k]) {
        var j := k - |w.log|;
        assert w'.log[|w.log| + j] == GateCall(targets[j].id, targets[j].sha, op.input);
        DispatchSetIff(w, GATE_CHECK, w'.log[k].id);
      }
    } else if op.RunEvent? {
      EventRunLog(s, w, op.event, MAX_EVENTS_PER_DISPATCH);
      forall k | |w.log| <= k < |w'.log| ensures WasEligible(w, w'.log[k]) {
        assert Lawful(s, DispatchSet(w, EVENT_REACTION), w'.log[k]);
        DispatchSetIff(w, EVENT_REACTION, w'.log[k].id);
      }
    }
  }

  lemma EligibleIsEnabled(w: World, call: Invocation)
    requires WasEligible(w, call)
    ensures Enabled(w.order, call.id)
  {
    EnabledIff(w.order, call.id);
  }

  lemma EnabledIff(order: seq<ExtensionRecord>, id: string)
    ensures Enabled(order, id) <==> exists r :: r in order && r.id == id && r.enabled
  {
    if r :| r in order && r.id == id && r.enabled {
      var k :| 0 <= k < |order| && order[k] == r;
      assert order[k].id == id && order[k].enabled;
    }
  }

  /** An operation calls nothing that is not enabled. */
  lemma UncalledStep(s: Settings, y: Sys, op: Operation, id: string)
    requires !Enabled(y.world.order, id) || IsTripped(y.world.breaker, id)
    ensures NoCallsTo(id, y.world.log, Apply(s, y, op).world.log)
  {
    hide Apply, Enabled, IsTripped;
    InvokedWereEligible(s, y, op);
    var log := Apply(s, y, op).world.log;
    forall k | |y.world.log| <= k < |log| ensures log[k].id != id {
      EligibleIsEnabled(y.world, log[k]);
    }
  }

  // ---- disabled means not called ----

  predicate Enables(op: Operation, id: string) {
    op.SetEnabled? && op.id == id && op.enabled
  }

  lemma NoneEnabled(order: seq<ExtensionRecord>, order': seq<ExtensionRecord>, id: string)
    requires !Enabled(order, id)
    requires forall r :: r in order' && r.id == id && r.enabled ==> r in order
    ensures !Enabled(order', id)
  {
    hide Enabled;
    EnabledIff(order, id);
    EnabledIff(order', id);
  }

  lemma ApplyKeepsDisabled(s: Settings, y: Sys, op: Operation, id: string)
    requires !Enabled(y.world.order, id) && !Enables(op, id)
    ensures !Enabled(Apply(s, y, op).world.order, id)
  {
    hide GateRun, EventRun, DispatchSet, Installable, Registered, AllIn, LawfulGrant;
    var y' := Apply(s, y, op);
    match op {
      case Install(body, storeOk, blobOk) => InstallEffect(StoresOf(y), body, storeOk, blobOk);
      case Delete(x, readOk, writeOk, blobOk) =>
        WithoutMembers(y.world.order, x);
        NoneEnabled(y.world.order, y'.world.order, id);
      case SetEnabled(x, enabled, storeOk) => SetEnabledEffect(StoresOf(y), x, enabled, storeOk);
      case SetGrants(x, caps, readOk, writeOk) => SetGrantsEffect(StoresOf(y), x, caps, readOk, writeOk);
      case RunGate(input) =>
        GateRunKeeps(s, y.world, DispatchSet(y.world, GATE_CHECK), input);
        assert Follows(y.world, y'.world, id);
      case RunEvent(event) =>
        EventRunKeeps(s, y.world, event, MAX_EVENTS_PER_DISPATCH);
        assert Follows(y.world, y'.world, id);
      case ResetBreaker(_) =>
      case Restart =>
    }
  }

  lemma DisabledIsNoTarget(w: World, id: string, i: string)
    requires !Enabled(w.order, id)
    ensures !IsTarget(DispatchSet(w, i), id)
  {
    hide DispatchSet, IsTarget, Enabled;
    if IsTarget(DispatchSet(w, i), id) {
      DispatchSetSound(w, i, id);
    }
  }

  /** A successful disable clears the flag of the row and takes the extension out of every dispatch
      set. */
  lemma DisableWorks(s: Settings, y: Sys, id: string, i: string)
    requires id in y.rows
    ensures var y' := Apply(s, y, SetEnabled(id, false, true));
            id in y'.rows && !y'.rows[id].enabled && !Enabled(y'.world.order, id)
            && !IsTarget(DispatchSet(y'.world, i), id)
  {
    hide DispatchSet, IsTarget;
    SetEnabledEffect(StoresOf(y), id, false, true);
    DisabledIsNoTarget(Apply(s, y, SetEnabled(id, false, true)).world, id, i);
  }

  /** An extension that is not enabled is in no dispatch set and is never called, whatever operations
      follow, until one enables it. */
  lemma {:induction false} DisabledStaysUncalled(s: Settings, y: Sys, ops: seq<Operation>, id: string)
    requires !Enabled(y.world.order, id) && forall k :: 0 <= k < |ops| ==> !Enables(ops[k], id)
    ensures var y' := Run(s, y, ops);
            !Enabled(y'.world.order, id) && NoCallsTo(id, y.world.log, y'.world.log)
            && forall i :: !IsTarget(DispatchSet(y'.world, i), id)
    decreases ops
  {
    hide Apply, IsTarget, DispatchSet, Enabled, Enables;
    if ops != [] {
      var n := |ops| - 1;
      var before := Run(s, y, ops[..n]);
      DisabledStaysUncalled(s, y, ops[..n], id);
      ApplyKeepsDisabled(s, before, ops[n], id);
      UncalledStep(s, before, ops[n], id);
    }
    forall i ensures !IsTarget(DispatchSet(Run(s, y, ops).world, i), id) {
      DisabledIsNoTarget(Run(s, y, ops).world, id, i);
    }
  }

  /** In particular nothing runs that was not enabled since the daemon started, however it came in. */
  lemma {:induction false} NeverEnabledNeverCalled(s: Settings, rows: map<string, Extension>, blobs: set<string>,
                                                   ops: seq<Operation>, id: string)
    requires forall k :: 0 <= k < |ops| ==> !Enables(ops[k], id)
    ensures var log := Run(s, Boot(rows, blobs), ops).world.log;
            forall k :: 0 <= k < |log| ==> log[k].id != id
  {
    hide Apply, IsTarget, DispatchSet, Enables;
    DisabledStaysUncalled(s, Boot(rows, blobs), ops, id);
  }

  // ---- a restart forgets ----

  predicate Deletes(op: Operation, id: string) {
    op.Delete? && op.id == id && op.readOk && op.writeOk
  }

  /** Stored, but unknown to the registry. */
  predicate Forgotten(y: Sys, id: string) {
    id in y.rows && !Registered(y.world.order, id)
  }

  lemma SameIdsRegistered(order: seq<ExtensionRecord>, order': seq<ExtensionRecord>, id: string)
    requires |order'| == |order| && forall k :: 0 <= k < |order| ==> order'[k].id == order[k].id
    ensures Registered(order', id) <==> Registered(order, id)
  {
  }

  lemma ApplyKeepsForgotten(s: Settings, y: Sys, op: Operation, id: string)
    requires Forgotten(y, id) && !Deletes(op, id)
    ensures Forgotten(Apply(s, y, op), id)
  {
    hide GateRun, EventRun, DispatchSet, Registered;
    var y' := Apply(s, y, op);
    match op {
      case Install(body, storeOk, blobOk) => InstallAdds(StoresOf(y), body, storeOk, blobOk, id);
      case Delete(x, readOk, writeOk, blobOk) =>
        WithoutMembers(y.world.order, x);
        StillUnregistered(y.world.order, y'.world.order, id);
      case RunGate(input) =>
        GateRunKeeps(s, y.world, DispatchSet(y.world, GATE_CHECK), input);
        SameIdsRegistered(y.world.order, y'.world.order, id);
      case RunEvent(event) =>
        EventRunKeeps(s, y.world, event, MAX_EVENTS_PER_DISPATCH);
        SameIdsRegistered(y.world.order, y'.world.order, id);
      case Restart => StillUnregistered(y.world.order, [], id);
      case _ => SameIdsRegistered(y.world.order, y'.world.order, id);
    }
  }

  lemma StillUnregistered(order: seq<ExtensionRecord>, order': seq<ExtensionRecord>, id: string)
    requires !Registered(order, id) && forall r :: r in order' ==> r in order
    ensures !Registered(order', id)
  {
    forall k | 0 <= k < |order'| ensures order'[k].id != id {
      assert order'[k] in order;
      var j :| 0 <= j < |order| && order[j] == order'[k];
    }
  }

  lemma InstallAdds(st: Stores, b: InstallBody, storeOk: bool, blobOk: bool, id: string)
    requires id in st.rows && !Registered(st.order, id)
    ensures var st' := AfterInstall(st, b, storeOk, blobOk); id in st'.rows && !Registered(st'.order, id)
  {
  }

  /** The registry is not rebuilt from the store.  After a restart a stored extension is in no
      dispatch set and is never called, whatever enable, grant or install steps follow, until it is
      deleted. */
  lemma {:induction false} RestartForgets(s: Settings, y: Sys, ops: seq<Operation>, id: string)
    requires id in y.rows && forall k :: 0 <= k < |ops| ==> !Deletes(ops[k], id)
    ensures var y' := Run(s, Apply(s, y, Restart), ops);
            Forgotten(y', id) && NoCallsTo(id, y.world.log, y'.world.log)
            && forall i :: !IsTarget(DispatchSet(y'.world, i), id)
    decreases ops
  {
    hide IsTarget, DispatchSet, Deletes;
    var y' := Run(s, Apply(s, y, Restart), ops);
    if ops != [] {
      hide Apply, Forgotten;
      var n := |ops| - 1;
      var before := Run(s, Apply(s, y, Restart), ops[..n]);
      RestartForgets(s, y, ops[..n], id);
      ApplyKeepsForgotten(s, before, ops[n], id);
      UncalledStep(s, before, ops[n], id);
      ForgottenIsDisabled(before, id);
    }
    ForgottenIsDisabled(y', id);
    forall i ensures !IsTarget(DispatchSet(y'.world, i), id) {
      if IsTarget(DispatchSet(y'.world, i), id) {
        DispatchSetSound(y'.world, i, id);
      }
    }
  }

  lemma ForgottenIsDisabled(y: Sys, id: string)
    requires Forgotten(y, id)
    ensures !Enabled(y.world.order, id)
  {
  }

  /** Only deleting and installing it anew makes such an extension known again. */
  lemma DeleteAndInstallRevives(s: Settings, y: Sys, body: InstallBody, blobOk: bool)
    requires Forgotten(y, InstallId(body)) && !body.isEmpty && Checked(RequestOf(body)).Ok?
    ensures var deleted := Apply(s, y, Delete(InstallId(body), true, true, blobOk));
            Registered(Apply(s, deleted, Install(body, true, blobOk)).world.order, InstallId(body))
    ensures Apply(s, y, Install(body, true, blobOk)) == y
  {
    var id, order := InstallId(body), y.world.order;
    WithoutAbsent(order, id);
    var r := Checked(RequestOf(body)).value;
    assert (order + [r])[|order|].id == id;
  }

  // ---- trips last until a reset ----

  /** The trip of `id` and the alerts about it, from one state to a later one without a reset. */
  ghost predicate TripAccount(y: Sys, y': Sys, id: string) {
    (IsTripped(y.world.breaker, id) ==> IsTripped(y'.world.breaker, id))
    && AlertsFor(y'.world.alerts, id) - AlertsFor(y.world.alerts, id)
       == Bit(IsTripped(y'.world.breaker, id)) - Bit(IsTripped(y.world.breaker, id))
  }

  lemma ApplyAccount(s: Settings, y: Sys, op: Operation, id: string)
    requires !Resets(op, id)
    ensures TripAccount(y, Apply(s, y, op), id)
    ensures IsTripped(Apply(s, y, op).world.breaker, id) && !IsTripped(y.world.breaker, id)
            ==> !Enabled(Apply(s, y, op).world.order, id)
  {
    hide GateRun, EventRun, DispatchSet, AfterInstall, AfterDelete, AfterSetEnabled, AfterSetGrants;
    if op.RunGate? {
      GateRunKeeps(s, y.world, DispatchSet(y.world, GATE_CHECK), op.input);
      assert Follows(y.world, Apply(s, y, op).world, id);
    } else if op.RunEvent? {
      EventRunKeeps(s, y.world, op.event, MAX_EVENTS_PER_DISPATCH);
      assert Follows(y.world, Apply(s, y, op).world, id);
    }
  }

  /** Once tripped, an extension is never invoked again by any later operation until its breaker is
      reset or the daemon restarts, whatever enable, disable, delete or re-install steps come in
      between; and over any such stretch exactly one alert is sent if it trips, none otherwise. */
  lemma {:induction false} TripsLast(s: Settings, y: Sys, ops: seq<Operation>, id: string)
    requires forall k :: 0 <= k < |ops| ==> !Resets(ops[k], id)
    ensures TripAccount(y, Run(s, y, ops), id)
    ensures IsTripped(y.world.breaker, id) ==> NoCallsTo(id, y.world.log, Run(s, y, ops).world.log)
    decreases ops
  {
    if ops != [] {
      hide Apply, IsTripped, Enabled;
      var n := |ops| - 1;
      var before := Run(s, y, ops[..n]);
      TripsLast(s, y, ops[..n], id);
      ApplyAccount(s, before, ops[n], id);
      if IsTripped(y.world.breaker, id) {
        UncalledStep(s, before, ops[n], id);
      }
    }
  }

  lemma EnabledRecord(order: seq<ExtensionRecord>, id: string, i: string)
    ensures (exists r :: r in WithEnabled(order, id, true) && r.id == id && r.enabled
                         && i in r.manifest.extensionPoints)
            <==> exists r :: r in order && r.id == id && i in r.manifest.extensionPoints
  {
    var after := WithEnabled(order, id, true);
    if r :| r in after && r.id == id && r.enabled && i in r.manifest.extensionPoints {
      var k :| 0 <= k < |after| && after[k] == r;
      assert order[k] in order && order[k].id == id && i in order[k].manifest.extensionPoints;
    }
    if r :| r in order && r.id == id && i in r.manifest.extensionPoints {
      var k :| 0 <= k < |order| && order[k] == r;
      assert after[k] in after && after[k] == r.(enabled := true);
    }
  }

  /** Enabling makes an extension eligible, as documented, exactly when its breaker has not tripped
      and the registry holds a record of it that exports the interface; and it always enables the
      row. */
  lemma EnableWorksIff(s: Settings, y: Sys, id: string, i: string)
    requires id in y.rows
    ensures var y' := Apply(s, y, SetEnabled(id, true, true));
            id in y'.rows && y'.rows[id].enabled
            && (IsTarget(DispatchSet(y'.world, i), id) <==>
                  !IsTripped(y.world.breaker, id)
                  && exists r :: r in y.world.order && r.id == id && i in r.manifest.extensionPoints)
  {
    hide IsTarget, DispatchSet, WithEnabled, IsTripped;
    DispatchSetIff(Apply(s, y, SetEnabled(id, true, true)).world, i, id);
    EnabledRecord(y.world.order, id, i);
  }

  /** In particular an operation that trips an extension leaves it out of every dispatch set, even
      if the next operation enables it again. */
  lemma EnableDoesNotRevive(s: Settings, y: Sys, id: string, storeOk: bool, i: string)
    requires IsTripped(y.world.breaker, id)
    ensures !IsTarget(DispatchSet(Apply(s, y, SetEnabled(id, true, storeOk)).world, i), id)
  {
    hide AfterSetEnabled;
    var w := Apply(s, y, SetEnabled(id, true, storeOk)).world;
    if IsTarget(DispatchSet(w, i), id) {
      DispatchSetSound(w, i, id);
    }
  }

  // ---- one component under two ids ----

  function Named(body: InstallBody, id: string): InstallBody {
    body.(id := Some(id))
  }

  lemma RunThree(s: Settings, y: Sys, a: Operation, b: Operation, c: Operation)
    ensures Run(s, y, [a, b, c]) == Apply(s, Apply(s, Apply(s, y, a), b), c)
  {
    hide Apply;
    assert [a, b, c][..2] == [a, b] && [a, b][..1] == [a] && [a][..0] == [];
    assert Run(s, y, [a]) == Apply(s, Run(s, y, []), a);
    assert Run(s, y, [a, b]) == Apply(s, Run(s, y, [a]), b);
  }

  lemma InstallsFresh(s: Settings, y: Sys, body: InstallBody, id: string)
    requires !body.isEmpty && Checked(RequestOf(body)).Ok? && id !in y.rows && !Registered(y.world.order, id)
    ensures var y', sha := Apply(s, y, Install(Named(body, id), true, true)), body.component.sha256;
            id in y'.rows && y'.rows[id].wasmSha256 == sha
            && (forall x :: x in y'.rows <==> x in y.rows || x == id)
            && (forall x :: x in y.rows ==> y'.rows[x] == y.rows[x])
            && (forall x :: x != id && Registered(y'.world.order, x) ==> Registered(y.world.order, x))
  {
    var y', request := Apply(s, y, Install(Named(body, id), true, true)), RequestOf(Named(body, id));
    assert request == RequestOf(body).(id := id);
    assert y'.world.order == y.world.order + [Checked(request).value];
  }

  lemma DeletesBytes(s: Settings, y: Sys, id: string)
    requires id in y.rows
    ensures var y' := Apply(s, y, Delete(id, true, true, true));
            y'.rows == y.rows - {id} && y'.blobs == y.blobs - {y.rows[id].wasmSha256}
  {
  }

  /** The same component can be installed twice, and deleting one of the two takes the bytes of the
      other. */
  lemma SharedBytesAreLost(s: Settings, body: InstallBody, x: string, z: string)
    requires x != z && !body.isEmpty && Checked(RequestOf(body)).Ok?
    ensures var ops := [Install(Named(body, x), true, true), Install(Named(body, z), true, true),
                        Delete(x, true, true, true)];
            var y := Run(s, Boot(map[], {}), ops);
            z in y.rows && y.rows[z].wasmSha256 !in y.blobs
  {
    hide Apply, AfterInstall, AfterDelete, Named, Checked, RequestOf;
    var y, a, b := Boot(map[], {}), Install(Named(body, x), true, true), Install(Named(body, z), true, true);
    var c, sha := Delete(x, true, true, true), body.component.sha256;
    var first := Apply(s, y, a);
    var second := Apply(s, first, b);
    RunThree(s, y, a, b, c);
    InstallsFresh(s, y, body, x);
    InstallsFresh(s, first, body, z);
    DeletesBytes(s, second, x);
    assert second.rows[x].wasmSha256 == sha && second.rows[z].wasmSha256 == sha;
  }
}
