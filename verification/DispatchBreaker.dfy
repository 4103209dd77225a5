/** What breaker trips do to the gate and to whole dispatch calls. */
module DispatchBreaker {
  import opened Wrappers
  import opened Strings
  import opened Breaker
  import opened Registries
  import opened Dispatch
  import opened DispatchWorklist
  import opened DispatchRecords

  function Bit(b: bool): int {
    if b then 1 else 0
  }

  function AlertsFor(alerts: seq<Alert>, id: string): int {
    if alerts == [] then 0
    else AlertsFor(alerts[..|alerts| - 1], id) + Bit(alerts[|alerts| - 1].extId == id)
  }

  predicate Enabled(order: seq<ExtensionRecord>, id: string) {
    exists k :: 0 <= k < |order| && order[k].id == id && order[k].enabled
  }

  /** `order'` is `order` with some records disabled. */
  ghost predicate OnlyDisabled(order: seq<ExtensionRecord>, order': seq<ExtensionRecord>) {
    |order'| == |order|
    && forall k :: 0 <= k < |order| ==> order'[k] == order[k] || order'[k] == order[k].(enabled := false)
  }

  /** How dispatch may move the world, for one extension: a trip is never taken back, comes with
      exactly one alert, and leaves the extension disabled. */
  ghost predicate Follows(w: World, w': World, id: string) {
    && (IsTripped(w.breaker, id) ==> IsTripped(w'.breaker, id))
    && AlertsFor(w'.alerts, id) - AlertsFor(w.alerts, id)
       == Bit(IsTripped(w'.breaker, id)) - Bit(IsTripped(w.breaker, id))
    && (Enabled(w'.order, id) ==> Enabled(w.order, id))
    && (IsTripped(w'.breaker, id) && !IsTripped(w.breaker, id) ==> !Enabled(w'.order, id))
  }

  /** What every dispatch call keeps. */
  ghost predicate Keeps(s: Settings, w: World, w': World) {
    OnlyDisabled(w.order, w'.order)
    && AlertsFromCalls(s, w, w')
    && (WithinBudget(s, w.rate) ==> WithinBudget(s, w'.rate))
    && FeedsBreaker(s, w, w')
    && forall id :: Follows(w, w', id)
  }

  lemma FollowsTrans(a: World, b: World, c: World, id: string)
    requires Follows(a, b, id) && Follows(b, c, id)
    ensures Follows(a, c, id)
  {
  }

  lemma KeepsTrans(s: Settings, a: World, b: World, c: World)
    requires Keeps(s, a, b) && Keeps(s, b, c)
    ensures Keeps(s, a, c)
  {
    hide Follows, WithinBudget, FeedsBreaker, AlertsFromCalls;
    FeedsTrans(s, a, b, c);
    AlertsTrans(s, a, b, c);
    forall id ensures Follows(a, c, id) {
      FollowsTrans(a, b, c, id);
    }
  }

  lemma KeepsSame(s: Settings, w: World)
    ensures Keeps(s, w, w)
  {
    hide FeedsBreaker;
    FeedsSame(s, w, w);
    AlertsSame(s, w, w);
  }

  lemma SucceededKeeps(s: Settings, w: World, call: Invocation)
    requires !FaultAt(s, w.log + [call], |w.log|)
    ensures Keeps(s, w, Succeeded(w.(log := w.log + [call]), call.id))
  {
    hide FeedsBreaker, FaultAt;
    var w' := Succeeded(w.(log := w.log + [call]), call.id);
    CallFeeds(s, w, w', call, Success(call.id));
    AlertsSame(s, w, w');
  }

  lemma FaultedFollows(s: Settings, w: World, id: string, reason: string, x: string)
    ensures Follows(w, Faulted(s, w, id, reason), x)
  {
    hide Enabled, WithEnabled;
    var w' := Faulted(s, w, id, reason);
    if FailureAlert(s.threshold, w.breaker, id, reason).Some? {
      assert w'.alerts[..|w.alerts|] == w.alerts;
      DisableOne(w.order, id, x);
    }
  }

  lemma FaultedKeeps(s: Settings, w: World, call: Invocation, reason: string)
    requires FaultReason(s, w.log + [call], |w.log|) == Some(reason)
    ensures Keeps(s, w, Faulted(s, w.(log := w.log + [call]), call.id, reason))
  {
    assert FaultAt(s, w.log + [call], |w.log|);
    hide FeedsBreaker, FaultAt, FaultReason, Follows, AfterFailure, FailureAlert, AlertsFromCalls;
    var w' := Faulted(s, w.(log := w.log + [call]), call.id, reason);
    CallFeeds(s, w, w', call, Fault(call.id, reason));
    FaultedAlerts(s, w, call, reason);
    forall x ensures Follows(w, w', x) {
      FaultedFollows(s, w.(log := w.log + [call]), call.id, reason, x);
      SameFollows(w, w.(log := w.log + [call]), w', x);
    }
  }

  lemma SameFollows(w: World, v: World, w': World, id: string)
    requires Follows(v, w', id) && v.order == w.order && v.breaker == w.breaker && v.alerts == w.alerts
    ensures Follows(w, w', id)
  {
  }

  lemma DisableOne(order: seq<ExtensionRecord>, id: string, x: string)
    ensures Enabled(WithEnabled(order, id, false), x) <==> Enabled(order, x) && x != id
  {
    var after := WithEnabled(order, id, false);
    if Enabled(after, x) {
      var k :| 0 <= k < |after| && after[k].id == x && after[k].enabled;
      assert order[k].id == x && order[k].enabled;
    }
    if Enabled(order, x) && x != id {
      var k :| 0 <= k < |order| && order[k].id == x && order[k].enabled;
      assert after[k].id == x && after[k].enabled;
    }
  }

  lemma {:induction false} EmitAllKeeps(s: Settings, w: World, id: string, parent: HostEvent, actions: seq<Action>)
    ensures Keeps(s, w, EmitAll(s, w, id, parent, actions).world)
  {
    if actions == [] {
      KeepsSame(s, w);
    } else {
      hide Keeps, EmitOne;
      var n := |actions| - 1;
      EmitAllKeeps(s, w, id, parent, actions[..n]);
      var before := EmitAll(s, w, id, parent, actions[..n]).world;
      EmitOneKeeps(s, before, id, parent, actions[n]);
      KeepsTrans(s, w, before, EmitOne(s, before, id, parent, actions[n]).world);
    }
  }

  lemma EmitOneKeeps(s: Settings, w: World, id: string, parent: HostEvent, a: Action)
    ensures Keeps(s, w, EmitOne(s, w, id, parent, a).world)
  {
    hide FeedsBreaker;
    FeedsSame(s, w, EmitOne(s, w, id, parent, a).world);
    AlertsSame(s, w, EmitOne(s, w, id, parent, a).world);
  }

  lemma ReactKeeps(s: Settings, w: World, t: Target, e: HostEvent)
    ensures Keeps(s, w, React(s, w, t, e).world)
  {
    hide Keeps, Faulted, Succeeded, EmitAll;
    var result := s.outside.react(|w.log|, t.sha, ToExtEvent(e));
    var call := Reaction(t.id, t.sha, e, ToExtEvent(e));
    KeepsSame(s, w);
    match result {
      case Ok(actions) =>
        var after := Succeeded(w.(log := w.log + [call]), t.id);
        SucceededKeeps(s, w, call);
        EmitAllKeeps(s, after, t.id, e, actions);
        KeepsTrans(s, w, after, EmitAll(s, after, t.id, e, actions).world);
      case Err(fault) => FaultedKeeps(s, w, call, fault);
    }
  }

  lemma {:induction false} DeliverKeeps(s: Settings, w: World, targets: seq<Target>, e: HostEvent)
    ensures Keeps(s, w, Deliver(s, w, targets, e).world)
  {
    if targets == [] {
      KeepsSame(s, w);
    } else {
      hide Keeps, React;
      var n := |targets| - 1;
      var before := Deliver(s, w, targets[..n], e).world;
      DeliverKeeps(s, w, targets[..n], e);
      ReactKeeps(s, before, targets[n], e);
      KeepsTrans(s, w, before, React(s, before, targets[n], e).world);
    }
  }

  lemma {:induction false} DrainKeeps(s: Settings, w: World, targets: seq<Target>, queue: seq<HostEvent>, left: nat)
    ensures Keeps(s, w, Drain(s, w, targets, queue, left).world)
    decreases left
  {
    hide Keeps, Deliver;
    if queue == [] || left == 0 {
      KeepsSame(s, w);
    } else {
      var d := Deliver(s, w, targets, queue[0]);
      DeliverKeeps(s, w, targets, queue[0]);
      DrainKeeps(s, d.world, targets, queue[1..] + d.kids, left - 1);
      KeepsTrans(s, w, d.world, Drain(s, w, targets, queue, left).world);
    }
  }

  /** A whole event call: each trip in it sends one alert and disables, and nothing is undone. */
  lemma {:induction false} EventRunKeeps(s: Settings, w: World, e: HostEvent, ceiling: nat)
    ensures Keeps(s, w, EventRun(s, w, e, ceiling).world)
  {
    hide Keeps;
    KeepsSame(s, w);
    DrainKeeps(s, w, DispatchSet(w, EVENT_REACTION), [e], ceiling);
  }

  lemma GateOneKeeps(s: Settings, w: World, t: Target, input: GateInput)
    ensures Keeps(s, w, GateOne(s, w, t, input))
  {
    hide Keeps, Faulted, Succeeded;
    var result := s.outside.gate(|w.log|, t.sha, input);
    var call := GateCall(t.id, t.sha, input);
    if result.Ok? {
      SucceededKeeps(s, w, call);
    } else {
      FaultedKeeps(s, w, call, GateVerdictFailClosed(result).message);
    }
  }

  /** A whole gate call, likewise. */
  lemma {:induction false} GateRunKeeps(s: Settings, w: World, targets: seq<Target>, input: GateInput)
    ensures Keeps(s, w, GateRun(s, w, targets, input))
  {
    if targets == [] {
      KeepsSame(s, w);
    } else {
      hide Keeps, GateOne;
      var n := |targets| - 1;
      var before := GateRun(s, w, targets[..n], input);
      GateRunKeeps(s, w, targets[..n], input);
      GateOneKeeps(s, before, targets[n], input);
      KeepsTrans(s, w, before, GateOne(s, before, targets[n], input));
    }
  }

  // ---- who is invoked ----

  lemma {:induction false} DispatchListSound(order: seq<ExtensionRecord>, i: string, r: ExtensionRecord)
    requires r in DispatchList(order, i)
    ensures r in order && r.enabled && i in r.manifest.extensionPoints
  {
    var n := |order| - 1;
    var last := order[n];
    if r in DispatchList(order[..n], i) {
      DispatchListSound(order[..n], i, r);
    } else {
      OccursIn(last.manifest.extensionPoints, i);
    }
  }

  lemma {:induction false} OccursIn(xs: seq<string>, x: string)
    ensures Occurrences(xs, x) > 0 <==> x in xs
  {
    if xs != [] {
      OccursIn(xs[..|xs| - 1], x);
      assert xs == xs[..|xs| - 1] + [xs[|xs| - 1]];
    }
  }

  lemma {:induction false} DispatchListComplete(order: seq<ExtensionRecord>, i: string, r: ExtensionRecord)
    requires r in order && r.enabled && i in r.manifest.extensionPoints
    ensures r in DispatchList(order, i)
  {
    var n := |order| - 1;
    if r == order[n] {
      OccursIn(r.manifest.extensionPoints, i);
      assert Repeat(r, Occurrences(r.manifest.extensionPoints, i))[0] == r;
    } else {
      assert order == order[..n] + [order[n]];
      DispatchListComplete(order[..n], i, r);
    }
  }

  lemma {:induction false} TargetsIff(records: seq<ExtensionRecord>, t: Table, id: string)
    ensures IsTarget(Targets(records, t), id) <==> !IsTripped(t, id) && exists r :: r in records && r.id == id
  {
    if records != [] {
      var n := |records| - 1;
      var before, last := Targets(records[..n], t), records[n];
      TargetsIff(records[..n], t, id);
      assert records == records[..n] + [last];
      if IsTripped(t, last.id) {
        assert before + [] == before;
      } else {
        IsTargetSnoc(before, Target(last.id, last.wasmSha256), id);
      }
    }
  }

  /** The dispatch set of an interface holds exactly the extensions that are registered, enabled,
      export it and have not tripped. */
  lemma DispatchSetIff(w: World, i: string, id: string)
    ensures IsTarget(DispatchSet(w, i), id) <==>
            !IsTripped(w.breaker, id)
            && exists r :: r in w.order && r.id == id && r.enabled && i in r.manifest.extensionPoints
  {
    hide IsTarget;
    TargetsIff(DispatchList(w.order, i), w.breaker, id);
    forall r ensures r in DispatchList(w.order, i) <==> r in w.order && r.enabled && i in r.manifest.extensionPoints {
      if r in DispatchList(w.order, i) {
        DispatchListSound(w.order, i, r);
      }
      if r in w.order && r.enabled && i in r.manifest.extensionPoints {
        DispatchListComplete(w.order, i, r);
      }
    }
  }

  // ---- install order ----

  predicate Eligible(t: Table, r: ExtensionRecord) {
    r.enabled && !IsTripped(t, r.id)
  }

  /** `ps` are the positions of the records the targets come from: they never go back, each target is
      the extension and the component of an eligible record, and an eligible record gives as many
      targets as its manifest lists the interface. */
  ghost predicate ComesFrom(order: seq<ExtensionRecord>, t: Table, i: string, targets: seq<Target>, ps: seq<int>) {
    |ps| == |targets|
    && (forall a, b :: 0 <= a <= b < |ps| ==> ps[a] <= ps[b])
    && (forall a :: 0 <= a < |ps| ==>
          0 <= ps[a] < |order| && Eligible(t, order[ps[a]])
          && targets[a] == Target(order[ps[a]].id, order[ps[a]].wasmSha256))
    && forall p :: 0 <= p < |order| ==>
         multiset(ps)[p] == if Eligible(t, order[p]) then multiset(order[p].manifest.extensionPoints)[i] else 0
  }

  lemma {:induction false} OccurrencesAre(xs: seq<string>, x: string)
    ensures Occurrences(xs, x) == multiset(xs)[x]
  {
    if xs != [] {
      OccurrencesAre(xs[..|xs| - 1], x);
      assert xs == xs[..|xs| - 1] + [xs[|xs| - 1]];
    }
  }

  lemma {:induction false} TargetsConcat(a: seq<ExtensionRecord>, b: seq<ExtensionRecord>, t: Table)
    ensures Targets(a + b, t) == Targets(a, t) + Targets(b, t)
    decreases b
  {
    if b == [] {
      assert a + b == a;
    } else {
      assert (a + b)[..|a + b| - 1] == a + b[..|b| - 1];
      TargetsConcat(a, b[..|b| - 1], t);
    }
  }

  lemma {:induction false} TargetsRepeat(r: ExtensionRecord, n: nat, t: Table)
    ensures Targets(Repeat(r, n), t) == if IsTripped(t, r.id) then [] else Repeat(Target(r.id, r.wasmSha256), n)
    decreases n
  {
    if n > 0 {
      assert Repeat(r, n)[..n - 1] == Repeat(r, n - 1);
      TargetsRepeat(r, n - 1, t);
    }
  }

  lemma {:induction false} RepeatCounts(p: int, n: nat)
    ensures multiset(Repeat(p, n)) == multiset{}[p := n]
    decreases n
  {
    if n > 0 {
      RepeatCounts(p, n - 1);
      assert Repeat(p, n) == Repeat(p, n - 1) + [p];
    }
  }

  lemma ComesFromSnoc(order: seq<ExtensionRecord>, r: ExtensionRecord, t: Table, i: string, targets: seq<Target>,
                      ps: seq<int>, own: nat)
    requires ComesFrom(order, t, i, targets, ps)
    requires own == if Eligible(t, r) then multiset(r.manifest.extensionPoints)[i] else 0
    ensures ComesFrom(order + [r], t, i, targets + Repeat(Target(r.id, r.wasmSha256), own), ps + Repeat(|order|, own))
  {
    hide Eligible;
    var all, qs := order + [r], ps + Repeat(|order|, own);
    RepeatCounts(|order|, own);
    assert multiset(qs) == multiset(ps) + multiset(Repeat(|order|, own));
    assert |order| !in multiset(ps) by {
      assert forall a :: 0 <= a < |ps| ==> ps[a] != |order|;
    }
    forall p | 0 <= p < |all|
      ensures multiset(qs)[p] == if Eligible(t, all[p]) then multiset(all[p].manifest.extensionPoints)[i] else 0
    {
      assert p < |order| ==> all[p] == order[p];
    }
  }

  lemma {:induction false} TargetsInOrder(order: seq<ExtensionRecord>, t: Table, i: string) returns (ps: seq<int>)
    ensures ComesFrom(order, t, i, Targets(DispatchList(order, i), t), ps)
    decreases order
  {
    hide IsTripped, Targets;
    if order == [] {
      ps := [];
      NoTargets(t);
    } else {
      hide ComesFrom;
      var n := |order| - 1;
      var r := order[n];
      var before := TargetsInOrder(order[..n], t, i);
      var count := Occurrences(r.manifest.extensionPoints, i);
      var own := if Eligible(t, r) then count else 0;
      OccurrencesAre(r.manifest.extensionPoints, i);
      TargetsConcat(DispatchList(order[..n], i), if r.enabled then Repeat(r, count) else [], t);
      TargetsRepeat(r, if r.enabled then count else 0, t);
      assert Repeat(r, 0) == [] && Repeat(Target(r.id, r.wasmSha256), 0) == [];
      ComesFromSnoc(order[..n], r, t, i, Targets(DispatchList(order[..n], i), t), before, own);
      assert order == order[..n] + [r];
      ps := before + Repeat(n, own);
    }
  }

  lemma NoTargets(t: Table)
    ensures Targets([], t) == []
  {
  }

  /** The dispatch set of an interface is in install order: what it calls, how often, and with which
      component is read off the registered records in turn. */
  lemma DispatchSetInOrder(w: World, i: string)
    ensures exists ps :: ComesFrom(w.order, w.breaker, i, DispatchSet(w, i), ps)
  {
    hide ComesFrom, Targets, DispatchList;
    var ps := TargetsInOrder(w.order, w.breaker, i);
    assert ComesFrom(w.order, w.breaker, i, DispatchSet(w, i), ps);
  }

  lemma DispatchSetSound(w: World, i: string, id: string)
    requires IsTarget(DispatchSet(w, i), id)
    ensures !IsTripped(w.breaker, id) && Enabled(w.order, id)
  {
    DispatchSetIff(w, i, id);
    var r :| r in w.order && r.id == id && r.enabled;
    var k :| 0 <= k < |w.order| && w.order[k] == r;
  }

  /** Only targets are called. */
  ghost predicate CallsOnly(targets: seq<Target>, before: seq<Invocation>, after: seq<Invocation>) {
    before <= after && forall k :: |before| <= k < |after| ==> IsTarget(targets, after[k].id)
  }

  lemma GateOneLog(s: Settings, w: World, t: Target, input: GateInput)
    ensures GateOne(s, w, t, input).log == w.log + [GateCall(t.id, t.sha, input)]
  {
  }

  /** A gate call runs each target once, in order, on its own component and on the input given. */
  lemma {:induction false} GateRunLog(s: Settings, w: World, targets: seq<Target>, n: nat, input: GateInput)
    requires n <= |targets|
    ensures var w' := GateRun(s, w, targets[..n], input);
            |w'.log| == |w.log| + n && CallsOnly(targets, w.log, w'.log)
            && forall k :: 0 <= k < n ==> w'.log[|w.log| + k] == GateCall(targets[k].id, targets[k].sha, input)
    decreases n
  {
    if n > 0 {
      hide GateOne;
      assert targets[..n][..n - 1] == targets[..n - 1];
      GateRunLog(s, w, targets, n - 1, input);
      GateOneLog(s, GateRun(s, w, targets[..n - 1], input), targets[n - 1], input);
      assert IsTarget(targets, targets[n - 1].id);
    }
  }

  // ---- the gate decision ----

  predicate Fails(s: Settings, first: nat, targets: seq<Target>, k: int, input: GateInput) {
    0 <= k < |targets|
    && match s.outside.gate(first + k, targets[k].sha, input)
       case Ok(verdict) => verdict.kind == Fail
       case Err(_) => true
  }

  /** The indices of the failing targets, ascending. */
  function Failing(s: Settings, first: nat, targets: seq<Target>, input: GateInput): (ks: seq<nat>)
    ensures forall k :: k in ks <==> Fails(s, first, targets, k, input)
    ensures forall i, j :: 0 <= i < j < |ks| ==> ks[i] < ks[j]
  {
    if targets == [] then []
    else
      var n := |targets| - 1;
      var ks := Failing(s, first, targets[..n], input);
      assert forall k :: 0 <= k < n ==> targets[..n][k] == targets[k];
      assert forall k :: Fails(s, first, targets[..n], k, input) <==> k < n && Fails(s, first, targets, k, input);
      assert forall i :: 0 <= i < |ks| ==> ks[i] in ks;
      ks + if Fails(s, first, targets, n, input) then [n] else []
  }

  predicate IsReasonOf(s: Settings, first: nat, targets: seq<Target>, k: int, input: GateInput, reason: string) {
    Fails(s, first, targets, k, input)
    && reason == "[" + targets[k].id + "] "
                 + match s.outside.gate(first + k, targets[k].sha, input)
                   case Ok(verdict) => verdict.message
                   case Err(fault) => "gate check failed closed: " + fault
  }

  /** The reasons are those of the failing targets, one each, in order. */
  lemma {:induction false} BlocksAreFailing(s: Settings, first: nat, targets: seq<Target>, input: GateInput)
    ensures var bs, ks := Blocks(s, first, targets, input), Failing(s, first, targets, input);
            |bs| == |ks| && forall i :: 0 <= i < |ks| ==> IsReasonOf(s, first, targets, ks[i], input, bs[i])
  {
    if targets != [] {
      var n := |targets| - 1;
      BlocksAreFailing(s, first, targets[..n], input);
      var ks := Failing(s, first, targets[..n], input);
      forall i | 0 <= i < |ks| ensures ks[i] < n && targets[..n][ks[i]] == targets[ks[i]] {
        assert ks[i] in ks;
      }
      assert Failing(s, first, targets, input) == ks + if Fails(s, first, targets, n, input) then [n] else [];
    }
  }

  /** Fail-closed and faithful: the branch lands exactly when every target of the snapshot ran
      cleanly and did not say fail; otherwise the reason lists exactly the others, in order. */
  lemma GateFaithful(s: Settings, w: World, input: GateInput)
    ensures var targets, first := DispatchSet(w, GATE_CHECK), |w.log|;
            var decision := Decide(Blocks(s, first, targets, input));
            (decision.Land? <==>
               forall k :: 0 <= k < |targets| ==>
                 var result := s.outside.gate(first + k, targets[k].sha, input);
                 result.Ok? && result.value.kind != Fail)
            && (decision.Block? ==>
                  decision.reason == Join(Blocks(s, first, targets, input), "; ")
                  && |Blocks(s, first, targets, input)| == |Failing(s, first, targets, input)|)
  {
    hide Blocks, DispatchSet, Join;
    var targets, first := DispatchSet(w, GATE_CHECK), |w.log|;
    BlocksAreFailing(s, first, targets, input);
    NoneFailing(s, first, targets, input);
  }

  lemma NoneFailing(s: Settings, first: nat, targets: seq<Target>, input: GateInput)
    ensures Failing(s, first, targets, input) == [] <==>
            forall k :: 0 <= k < |targets| ==>
              var result := s.outside.gate(first + k, targets[k].sha, input);
              result.Ok? && result.value.kind != Fail
  {
  }

  lemma IsTargetSnoc(targets: seq<Target>, t: Target, id: string)
    ensures IsTarget(targets + [t], id) <==> IsTarget(targets, id) || t.id == id
  {
    var all := targets + [t];
    if IsTarget(targets, id) {
      var k :| 0 <= k < |targets| && targets[k].id == id;
      assert all[k].id == id;
    }
    assert all[|targets|] == t;
  }

  /** The `k`-th target does not fault when the first one is guest call number `first`. */
  predicate RunsCleanly(s: Settings, first: nat, targets: seq<Target>, k: nat, input: GateInput) {
    k < |targets| && s.outside.gate(first + k, targets[k].sha, input).Ok?
  }

  /** For one extension a call that never faulted itself changes nothing but its streak, which a
      call to it ends. */
  ghost predicate CleanEffect(w: World, w': World, id: string, called: bool) {
    IsTripped(w'.breaker, id) == IsTripped(w.breaker, id)
    && Consecutive(w'.breaker, id) == (if called then 0 else Consecutive(w.breaker, id))
    && AlertsFor(w'.alerts, id) == AlertsFor(w.alerts, id)
    && Enabled(w'.order, id) == Enabled(w.order, id)
  }

  lemma CleanPrefix(s: Settings, first: nat, targets: seq<Target>, n: nat, k: nat, input: GateInput)
    requires k < n <= |targets|
    ensures RunsCleanly(s, first, targets[..n], k, input) <==> RunsCleanly(s, first, targets, k, input)
  {
  }

  /** A gate that says fail without faulting never moves its breaker closer to a trip, whatever the
      other gates of the call do. */
  lemma {:induction false} CleanGatesNeverAdvance(s: Settings, w: World, targets: seq<Target>,
                                                  input: GateInput, id: string)
    requires forall k :: 0 <= k < |targets| && targets[k].id == id ==> RunsCleanly(s, |w.log|, targets, k, input)
    ensures CleanEffect(w, GateRun(s, w, targets, input), id, IsTarget(targets, id))
    decreases targets
  {
    hide GateOne, Enabled, AlertsFor, IsTripped, Consecutive;
    if targets != [] {
      var n := |targets| - 1;
      forall k | 0 <= k < n && targets[..n][k].id == id
        ensures RunsCleanly(s, |w.log|, targets[..n], k, input)
      {
        CleanPrefix(s, |w.log|, targets, n, k, input);
      }
      CleanGatesNeverAdvance(s, w, targets[..n], input, id);
      assert targets[n].id == id ==> RunsCleanly(s, |w.log|, targets, n, input);
      GateRunLog(s, w, targets, n, input);
      hide RunsCleanly, IsTarget, CallsOnly;
      IsTargetSnoc(targets[..n], targets[n], id);
      assert targets == targets[..n] + [targets[n]];
      CleanGateOne(s, GateRun(s, w, targets[..n], input), targets[n], input, id);
    }
  }

  lemma CleanGateOneDisablesNothing(s: Settings, w: World, t: Target, input: GateInput)
    requires s.outside.gate(|w.log|, t.sha, input).Ok?
    ensures var w' := GateOne(s, w, t, input); w'.order == w.order && w'.alerts == w.alerts
  {
  }

  /** If none of them faults, no extension is disabled and no alert is sent. */
  lemma {:induction false} CleanCallDisablesNothing(s: Settings, w: World, targets: seq<Target>, input: GateInput)
    requires forall k :: 0 <= k < |targets| ==> RunsCleanly(s, |w.log|, targets, k, input)
    ensures var w' := GateRun(s, w, targets, input); w'.order == w.order && w'.alerts == w.alerts
    decreases targets
  {
    hide GateOne;
    if targets != [] {
      var n := |targets| - 1;
      forall k | 0 <= k < n ensures RunsCleanly(s, |w.log|, targets[..n], k, input) {
        CleanPrefix(s, |w.log|, targets, n, k, input);
      }
      CleanCallDisablesNothing(s, w, targets[..n], input);
      assert RunsCleanly(s, |w.log|, targets, n, input);
      GateRunLog(s, w, targets, n, input);
      CleanGateOneDisablesNothing(s, GateRun(s, w, targets[..n], input), targets[n], input);
    }
  }

  lemma CleanGateOne(s: Settings, w: World, t: Target, input: GateInput, id: string)
    requires t.id == id ==> s.outside.gate(|w.log|, t.sha, input).Ok?
    ensures CleanEffect(w, GateOne(s, w, t, input), id, t.id == id)
  {
    hide Enabled, WithEnabled;
    DisableOne(w.order, t.id, id);
    var w' := GateOne(s, w, t, input);
    assert w'.alerts != w.alerts ==> w'.alerts[..|w.alerts|] == w.alerts;
  }

  // ---- a gate that always faults ----

  /** A whole gate call. */
  function GateCallRun(s: Settings, w: World, input: GateInput): World {
    GateRun(s, w, DispatchSet(w, GATE_CHECK), input)
  }

  /** The world after one gate call for each input. */
  function GateTimes(s: Settings, w: World, inputs: seq<GateInput>): World {
    if inputs == [] then w
    else
      var n := |inputs| - 1;
      GateCallRun(s, GateTimes(s, w, inputs[..n]), inputs[n])
  }

  function Decision(s: Settings, w: World, input: GateInput): GateDecision {
    Decide(Blocks(s, |w.log|, DispatchSet(w, GATE_CHECK), input))
  }

  lemma {:induction false} WithoutConcat(a: seq<ExtensionRecord>, b: seq<ExtensionRecord>, id: string)
    ensures Without(a + b, id) == Without(a, id) + Without(b, id)
    decreases b
  {
    if b == [] {
      assert a + b == a;
    } else {
      assert (a + b)[..|a + b| - 1] == a + b[..|b| - 1];
      WithoutConcat(a, b[..|b| - 1], id);
    }
  }

  lemma {:induction false} WithoutRepeat(r: ExtensionRecord, n: nat, id: string)
    ensures Without(Repeat(r, n), id) == if r.id == id then [] else Repeat(r, n)
    decreases n
  {
    if n > 0 {
      assert Repeat(r, n)[..n - 1] == Repeat(r, n - 1);
      WithoutRepeat(r, n - 1, id);
      assert Repeat(r, n) == Repeat(r, n - 1) + [r];
    }
  }

  /** Disabling an extension takes exactly it out of every dispatch list. */
  lemma {:induction false} DisabledLeaves(order: seq<ExtensionRecord>, id: string, i: string)
    ensures DispatchList(WithEnabled(order, id, false), i) == Without(DispatchList(order, i), id)
    decreases order
  {
    if order != [] {
      var n := |order| - 1;
      var r := order[n];
      DisabledLeaves(order[..n], id, i);
      assert WithEnabled(order, id, false)[..n] == WithEnabled(order[..n], id, false);
      var own := if r.enabled then Repeat(r, Occurrences(r.manifest.extensionPoints, i)) else [];
      WithoutConcat(DispatchList(order[..n], i), own, id);
      WithoutRepeat(r, Occurrences(r.manifest.extensionPoints, i), id);
    }
  }

  /** The only gate, not yet tripped. */
  ghost predicate SoleGate(w: World, r: ExtensionRecord, faults: nat) {
    DispatchList(w.order, GATE_CHECK) == [r] && StateOf(w.breaker, r.id) == State(faults, false)
  }

  lemma SoleGateTargets(w: World, r: ExtensionRecord, faults: nat)
    requires SoleGate(w, r, faults)
    ensures DispatchSet(w, GATE_CHECK) == [Target(r.id, r.wasmSha256)]
  {
    assert [r][..0] == [] && !IsTripped(w.breaker, r.id);
    assert Targets([r], w.breaker) == [] + [Target(r.id, r.wasmSha256)];
  }

  lemma OneGateCall(s: Settings, w: World, t: Target, input: GateInput)
    requires DispatchSet(w, GATE_CHECK) == [t]
    ensures GateCallRun(s, w, input) == GateOne(s, w, t, input)
    ensures var v := VerdictAt(s, |w.log|, t, 0, input);
            Blocks(s, |w.log|, [t], input) == if v.kind == Fail then [Reason(t, v)] else []
  {
    hide DispatchSet, GateOne;
    assert [t][..0] == [];
    assert GateRun(s, w, [t], input) == GateOne(s, GateRun(s, w, [], input), t, input);
    assert Blocks(s, |w.log|, [t][..0], input) == [];
  }

  lemma SoleGateFaults(s: Settings, w: World, r: ExtensionRecord, input: GateInput, faults: nat)
    requires SoleGate(w, r, faults) && faults < s.threshold <= U32_MAX
    requires s.outside.gate(|w.log|, r.wasmSha256, input).Err?
    ensures Decision(s, w, input).Block?
    ensures var w' := GateCallRun(s, w, input);
            if faults + 1 < s.threshold then SoleGate(w', r, faults + 1) && w'.alerts == w.alerts
            else DispatchSet(w', GATE_CHECK) == [] && |w'.alerts| == |w.alerts| + 1 && !Enabled(w'.order, r.id)
  {
    SoleGateTargets(w, r, faults);
    var t := Target(r.id, r.wasmSha256);
    hide GateRun, GateCallRun, Blocks;
    OneGateCall(s, w, t, input);
    assert VerdictAt(s, |w.log|, t, 0, input).kind == Fail;
    if faults + 1 == s.threshold {
      DisabledLeaves(w.order, r.id, GATE_CHECK);
      assert [r][..0] == [];
      DisableOne(w.order, r.id, r.id);
    }
  }

  lemma NoGates(s: Settings, w: World, input: GateInput)
    requires DispatchSet(w, GATE_CHECK) == []
    ensures Decision(s, w, input).Land? && GateCallRun(s, w, input) == w
  {
  }

  /** A sole gate that always faults, on a fresh breaker, blocks exactly `threshold` calls in a row,
      whatever they ask; then it has left the dispatch set, one alert has been sent, and every later
      call lands. */
  lemma {:induction false} FaultingGateBlocksThresholdTimes(s: Settings, w: World, r: ExtensionRecord,
                                                            inputs: seq<GateInput>, next: GateInput)
    requires SoleGate(w, r, 0) && 0 < s.threshold <= U32_MAX
    requires forall k: nat, input :: s.outside.gate(k, r.wasmSha256, input).Err?
    ensures Decision(s, GateTimes(s, w, inputs), next).Block? <==> |inputs| < s.threshold
    ensures |GateTimes(s, w, inputs).alerts| == |w.alerts| + if |inputs| < s.threshold then 0 else 1
    ensures |inputs| < s.threshold ==> SoleGate(GateTimes(s, w, inputs), r, |inputs|)
    ensures |inputs| >= s.threshold ==> DispatchSet(GateTimes(s, w, inputs), GATE_CHECK) == []
    decreases inputs
  {
    hide SoleGate, Decision, DispatchSet, GateRun, GateCallRun;
    var n := |inputs| - 1;
    if inputs == [] {
      SoleGateFaults(s, w, r, next, 0);
    } else {
      var before := GateTimes(s, w, inputs[..n]);
      FaultingGateBlocksThresholdTimes(s, w, r, inputs[..n], inputs[n]);
      if n < s.threshold {
        SoleGateFaults(s, before, r, inputs[n], n);
        if n + 1 < s.threshold {
          SoleGateFaults(s, GateTimes(s, w, inputs), r, next, n + 1);
        } else {
          NoGates(s, GateTimes(s, w, inputs), next);
        }
      } else {
        NoGates(s, before, inputs[n]);
        NoGates(s, GateTimes(s, w, inputs), next);
      }
    }
  }
}
