/** The per-extension circuit breaker, and what it means over whole histories of calls. */
module Breaker {
  import opened Wrappers

  const U32_MAX := 0xFFFF_FFFF

  datatype State = State(consecutive: nat, tripped: bool)

  datatype Alert = Alert(extId: string, consecutive: nat, threshold: nat, lastReason: string)

  type Table = map<string, State>

  function StateOf(t: Table, id: string): State {
    if id in t then t[id] else State(0, false)
  }

  predicate IsTripped(t: Table, id: string) {
    id in t && t[id].tripped
  }

  function Consecutive(t: Table, id: string): nat {
    if id in t then t[id].consecutive else 0
  }

  function SaturatingIncrement(n: nat): nat {
    if n < U32_MAX then n + 1 else n
  }

  function AfterFailure(threshold: nat, t: Table, id: string): Table {
    var n := SaturatingIncrement(Consecutive(t, id));
    t[id := State(n, IsTripped(t, id) || n >= threshold)]
  }

  /** The alert of a failure, if this is the call that trips. */
  function FailureAlert(threshold: nat, t: Table, id: string, reason: string): Option<Alert> {
    var n := SaturatingIncrement(Consecutive(t, id));
    if !IsTripped(t, id) && n >= threshold then Some(Alert(id, n, threshold, reason)) else None
  }

  function AfterSuccess(t: Table, id: string): Table {
    if id in t then t[id := t[id].(consecutive := 0)] else t
  }

  class CircuitBreaker {
    const threshold: nat
    var state: Table

    constructor (threshold: nat)
      requires threshold <= U32_MAX
      ensures this.threshold == (if threshold == 0 then 1 else threshold) && state == map[]
    {
      this.threshold := if threshold == 0 then 1 else threshold;
      state := map[];
    }

    method RecordFault(id: string, reason: string) returns (alert: Option<Alert>)
      modifies this
      ensures state == AfterFailure(threshold, old(state), id)
      ensures alert == FailureAlert(threshold, old(state), id, reason)
    {
      alert := RecordFailure(id, reason);
    }

    method RecordRejection(id: string, reason: string) returns (alert: Option<Alert>)
      modifies this
      ensures state == AfterFailure(threshold, old(state), id)
      ensures alert == FailureAlert(threshold, old(state), id, reason)
    {
      alert := RecordFailure(id, reason);
    }

    method RecordFailure(id: string, reason: string) returns (alert: Option<Alert>)
      modifies this
      ensures state == AfterFailure(threshold, old(state), id)
      ensures alert == FailureAlert(threshold, old(state), id, reason)
    {
      var st := StateOf(state, id);
      st := st.(consecutive := SaturatingIncrement(st.consecutive));
      alert := None;
      if !st.tripped && st.consecutive >= threshold {
        st := st.(tripped := true);
        alert := Some(Alert(id, st.consecutive, threshold, reason));
      }
      state := state[id := st];
    }

    method RecordSuccess(id: string)
      modifies this
      ensures state == AfterSuccess(old(state), id)
    {
      if id in state {
        state := state[id := state[id].(consecutive := 0)];
      }
    }

    method Reset(id: string)
      modifies this
      ensures state == old(state) - {id}
    {
      state := state - {id};
    }
  }

  // ---- histories ----

  datatype Op = Fault(id: string, reason: string) | Rejection(id: string, reason: string)
              | Success(id: string) | Reset(id: string)

  predicate IsFailure(op: Op) {
    op.Fault? || op.Rejection?
  }

  function Apply(threshold: nat, t: Table, op: Op): Table {
    match op
    case Fault(id, _) => AfterFailure(threshold, t, id)
    case Rejection(id, _) => AfterFailure(threshold, t, id)
    case Success(id) => AfterSuccess(t, id)
    case Reset(id) => t - {id}
  }

  function AlertOf(threshold: nat, t: Table, op: Op): Option<Alert> {
    if IsFailure(op) then FailureAlert(threshold, t, op.id, op.reason) else None
  }

  /** The breaker after a whole history, starting fresh. */
  function After(threshold: nat, ops: seq<Op>): Table {
    if ops == [] then map[]
    else
      var n := |ops| - 1;
      Apply(threshold, After(threshold, ops[..n]), ops[n])
  }

  /** The outcomes of one extension since its last reset; true for a failure. */
  function Since(ops: seq<Op>, id: string): seq<bool> {
    if ops == [] then []
    else
      var n := |ops| - 1;
      if ops[n].id != id then Since(ops[..n], id)
      else if ops[n].Reset? then []
      else Since(ops[..n], id) + [IsFailure(ops[n])]
  }

  /** Some `n` failures in a row. */
  ghost predicate HasRun(h: seq<bool>, n: nat) {
    exists i :: RunAt(h, i, n)
  }

  ghost predicate RunAt(h: seq<bool>, i: int, n: nat) {
    0 <= i <= |h| - n && forall k :: i <= k < i + n ==> h[k]
  }

  /** How many failures the history ends with. */
  function Streak(h: seq<bool>): (n: nat)
    ensures n <= |h| && forall k :: |h| - n <= k < |h| ==> h[k]
    ensures n < |h| ==> !h[|h| - n - 1]
  {
    if h == [] || !h[|h| - 1] then 0 else 1 + Streak(h[..|h| - 1])
  }

  lemma HasRunSnoc(h: seq<bool>, x: bool, n: nat)
    requires n > 0
    ensures HasRun(h + [x], n) <==> HasRun(h, n) || Streak(h + [x]) >= n
  {
    var g := h + [x];
    if HasRun(h, n) {
      var i :| RunAt(h, i, n);
      assert RunAt(g, i, n);
    }
    if Streak(g) >= n {
      assert RunAt(g, |g| - n, n);
    }
    if HasRun(g, n) {
      var i :| RunAt(g, i, n);
      if i + n <= |h| {
        assert forall k :: i <= k < i + n ==> g[k] == h[k];
        assert RunAt(h, i, n);
      } else {
        var s := Streak(g);
        assert s < n ==> i <= |g| - s - 1 < i + n;
      }
    }
  }

  lemma NoRunInNothing(n: nat)
    requires n > 0
    ensures !HasRun([], n)
  {
  }

  /** What a 32-bit counter shows of a count. */
  function Saturated(n: nat): nat {
    if n < 4294967295 then n else 4294967295
  }

  ghost predicate Matches(t: Table, id: string, h: seq<bool>, threshold: nat) {
    (IsTripped(t, id) <==> HasRun(h, threshold)) && Consecutive(t, id) == Saturated(Streak(h))
  }

  lemma OutcomeMatches(threshold: nat, t: Table, op: Op, h: seq<bool>)
    requires 0 < threshold <= U32_MAX && Matches(t, op.id, h, threshold) && !op.Reset?
    ensures Matches(Apply(threshold, t, op), op.id, h + [IsFailure(op)], threshold)
  {
    hide HasRun;
    HasRunSnoc(h, IsFailure(op), threshold);
    assert (h + [IsFailure(op)])[..|h|] == h;
  }

  lemma OtherUnchanged(threshold: nat, t: Table, op: Op, id: string)
    requires id != op.id
    ensures StateOf(Apply(threshold, t, op), id) == StateOf(t, id)
    ensures id in Apply(threshold, t, op) <==> id in t
  {
  }

  /** The counter is the current streak, saturated; the breaker has tripped exactly when the
      history since the last reset holds an uninterrupted run of `threshold` failures. */
  lemma {:induction false} TrippedIffRun(threshold: nat, ops: seq<Op>, id: string)
    requires 0 < threshold <= U32_MAX
    ensures IsTripped(After(threshold, ops), id) <==> HasRun(Since(ops, id), threshold)
    ensures Consecutive(After(threshold, ops), id) == Saturated(Streak(Since(ops, id)))
  {
    hide HasRun;
    NoRunInNothing(threshold);
    if ops != [] {
      var n := |ops| - 1;
      var t := After(threshold, ops[..n]);
      TrippedIffRun(threshold, ops[..n], id);
      if ops[n].id != id {
        OtherUnchanged(threshold, t, ops[n], id);
      } else if !ops[n].Reset? {
        OutcomeMatches(threshold, t, ops[n], Since(ops[..n], id));
      }
    }
  }

  /** A call returns an alert exactly when it completes the first such run since the last reset,
      and the alert then reports exactly `threshold` failures and the reason of this one. */
  lemma AlertIffFirstRun(threshold: nat, ops: seq<Op>, op: Op)
    requires 0 < threshold <= U32_MAX
    ensures var alert := AlertOf(threshold, After(threshold, ops), op);
            (alert.Some? <==> !HasRun(Since(ops, op.id), threshold)
                              && HasRun(Since(ops + [op], op.id), threshold))
            && (alert.Some? ==> IsFailure(op) && alert.value == Alert(op.id, threshold, threshold, op.reason))
  {
    var h := Since(ops, op.id);
    assert (ops + [op])[..|ops|] == ops;
    TrippedIffRun(threshold, ops, op.id);
    TrippedIffRun(threshold, ops + [op], op.id);
    if IsFailure(op) {
      HasRunSnoc(h, true, threshold);
      assert (h + [true])[..|h|] == h;
      if Streak(h) >= threshold {
        assert RunAt(h, |h| - threshold, threshold);
      }
    } else if op.Success? {
      HasRunSnoc(h, false, threshold);
    }
  }

  /** The alerts about one extension since its last reset. */
  function PeriodAlerts(threshold: nat, ops: seq<Op>, id: string): seq<Alert> {
    if ops == [] then []
    else
      var n := |ops| - 1;
      var before := PeriodAlerts(threshold, ops[..n], id);
      if ops[n].id != id then before
      else if ops[n].Reset? then []
      else
        match AlertOf(threshold, After(threshold, ops[..n]), ops[n])
        case Some(a) => before + [a]
        case None => before
  }

  /** One alert per period in which the breaker trips, none in the others. */
  lemma {:induction false} OneAlertPerPeriod(threshold: nat, ops: seq<Op>, id: string)
    requires 0 < threshold <= U32_MAX
    ensures |PeriodAlerts(threshold, ops, id)| == if IsTripped(After(threshold, ops), id) then 1 else 0
  {
    if ops != [] {
      OneAlertPerPeriod(threshold, ops[..|ops| - 1], id);
    }
  }

  /** The calls that concern one extension. */
  function Own(ops: seq<Op>, id: string): seq<Op> {
    if ops == [] then []
    else
      var n := |ops| - 1;
      Own(ops[..n], id) + (if ops[n].id == id then [ops[n]] else [])
  }

  /** Extensions do not disturb each other's breakers. */
  lemma {:induction false} Independent(threshold: nat, ops: seq<Op>, id: string)
    ensures Since(Own(ops, id), id) == Since(ops, id)
    ensures StateOf(After(threshold, Own(ops, id)), id) == StateOf(After(threshold, ops), id)
    ensures id in After(threshold, Own(ops, id)) <==> id in After(threshold, ops)
  {
    if ops != [] {
      var n := |ops| - 1;
      Independent(threshold, ops[..n], id);
      if ops[n].id == id {
        assert Own(ops, id)[..|Own(ops, id)| - 1] == Own(ops[..n], id);
      } else {
        assert Own(ops, id) == Own(ops[..n], id);
      }
    }
  }
}
