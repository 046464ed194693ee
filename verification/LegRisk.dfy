/** The leg-risk state machine (src/arbbot/exec/state_machine.py). */
module LegRisk {
  import opened Core

  datatype TradeState =
    | Flat | Leg1Working | Leg1Partial | Leg1Filled | Hedging | HedgeFailed
    | Hedged | Unwinding | Resolving | Settled | Unwound

  datatype TradeEvent =
    | PlaceLeg1 | Leg1FillFull | Leg1FillPartial | Leg1RestFilled | Leg1Cancelled | Leg1RemainderCancelled
    | PlaceHedge | HedgeFillFull | HedgeRejected | HedgeTimeout | RetryHedge | StartUnwind
    | UnwindFilled | MarketResolved | PositionSettled

  /** The exhaustive transition table; anything else is invalid. */
  function Next(s: TradeState, e: TradeEvent): Option<TradeState> {
    match (s, e)
    case (Flat, PlaceLeg1) => Some(Leg1Working)
    case (Leg1Working, Leg1FillFull) => Some(Leg1Filled)
    case (Leg1Working, Leg1FillPartial) => Some(Leg1Partial)
    case (Leg1Working, Leg1Cancelled) => Some(Flat)
    case (Leg1Partial, Leg1RestFilled) => Some(Leg1Filled)
    case (Leg1Partial, Leg1RemainderCancelled) => Some(Leg1Filled)
    case (Leg1Filled, PlaceHedge) => Some(Hedging)
    case (Leg1Filled, StartUnwind) => Some(Unwinding)
    case (Hedging, HedgeFillFull) => Some(Hedged)
    case (Hedging, HedgeRejected) => Some(HedgeFailed)
    case (Hedging, HedgeTimeout) => Some(HedgeFailed)
    case (HedgeFailed, RetryHedge) => Some(Hedging)
    case (HedgeFailed, StartUnwind) => Some(Unwinding)
    case (Hedged, MarketResolved) => Some(Resolving)
    case (Unwinding, UnwindFilled) => Some(Unwound)
    case (Resolving, PositionSettled) => Some(Settled)
    case _ => None
  }

  predicate Exposed(s: TradeState) {
    s in {Leg1Partial, Leg1Filled, Hedging, HedgeFailed, Unwinding}
  }

  const DEFAULT_MAX_AGE: map<TradeState, real> :=
    map[Leg1Working := 30.0, Leg1Partial := 10.0, Leg1Filled := 5.0,
        Hedging := 10.0, HedgeFailed := 5.0, Unwinding := 60.0]

  datatype Escalation = WorkTheHedge | CrossTheSpread | UnwindLeg1

  const ESCALATION := [WorkTheHedge, CrossTheSpread, UnwindLeg1]

  class TradeStateMachine {
    var state: TradeState
    var enteredAt: real
    var escalationStep: nat
    var history: seq<TradeEvent>
    const maxAge: map<TradeState, real> := DEFAULT_MAX_AGE

    /** The fields are what the history of applied events determines. */
    ghost predicate Valid()
      reads this
    {
      Run(history) == Some(state) && escalationStep == Capped(Retries(history))
    }

    constructor ()
      ensures Valid() && state == Flat && history == []
    {
      state, enteredAt, escalationStep, history := Flat, 0.0, 0, [];
    }

    method Apply(e: TradeEvent, now: real) returns (next: Option<TradeState>)
      requires Valid()
      modifies this
      ensures Valid()
      ensures next == Next(old(state), e)
      ensures next.Some? ==> state == next.value && enteredAt == now && history == old(history) + [e]
      ensures next.None? ==> state == old(state) && enteredAt == old(enteredAt) && history == old(history)
                             && escalationStep == old(escalationStep)
    {
      next := Next(state, e);
      if next.None? { return; }
      assert (history + [e])[..|history|] == history;
      history := history + [e];
      if e.RetryHedge? {
        escalationStep := if escalationStep + 1 < |ESCALATION| - 1 then escalationStep + 1 else |ESCALATION| - 1;
      }
      state := next.value;
      enteredAt := now;
    }

    /** What to do about a failed hedge. */
    function NextEscalation(): Escalation
      reads this
    {
      ESCALATION[Capped(escalationStep)]
    }

    predicate Overdue(now: real)
      reads this
    {
      state in maxAge && now - enteredAt > maxAge[state]
    }
  }

  function Alarming(machines: seq<TradeStateMachine>, now: real): seq<TradeStateMachine>
    reads machines
  {
    if machines == [] then []
    else
      var before, m := Alarming(machines[..|machines| - 1], now), machines[|machines| - 1];
      if Exposed(m.state) && m.Overdue(now) then before + [m] else before
  }

  /** The alarm scan keeps exactly the exposed and overdue machines, in order. */
  method AlarmScan(machines: seq<TradeStateMachine>, now: real) returns (overdue: seq<TradeStateMachine>)
    ensures overdue == Alarming(machines, now)
    ensures forall m :: m in overdue <==> m in machines && Exposed(m.state) && m.Overdue(now)
  {
    overdue := [];
    for i := 0 to |machines|
      invariant overdue == Alarming(machines[..i], now)
      invariant forall m :: m in overdue <==> m in machines[..i] && Exposed(m.state) && m.Overdue(now)
    {
      assert machines[..i + 1][..i] == machines[..i];
      assert machines[..i + 1] == machines[..i] + [machines[i]];
      if Exposed(machines[i].state) && machines[i].Overdue(now) { overdue := overdue + [machines[i]]; }
    }
    assert machines[..|machines|] == machines;
  }

  // ---------- whole runs ----------

  function Run(es: seq<TradeEvent>): Option<TradeState> {
    if es == [] then Some(Flat)
    else
      var s := Run(es[..|es| - 1]);
      if s.None? then None else Next(s.value, es[|es| - 1])
  }

  function Retries(es: seq<TradeEvent>): nat {
    if es == [] then 0 else Retries(es[..|es| - 1]) + if es[|es| - 1].RetryHedge? then 1 else 0
  }

  function Capped(n: nat): nat {
    if n < |ESCALATION| - 1 then n else |ESCALATION| - 1
  }

  predicate Fills(e: TradeEvent) {
    e.Leg1FillFull? || e.Leg1FillPartial?
  }

  /** Over every valid run: a machine is exposed exactly when its first leg has filled, fully or partly, and
      neither the hedge nor the unwind is done; a filled machine is never flat again; and it ends hedged or
      unwound, never both. */
  lemma {:induction false} ExposureIsUnresolvedFill(es: seq<TradeEvent>)
    requires Run(es).Some?
    ensures var s := Run(es).value;
      var filled := exists e :: e in es && Fills(e);
      && (Exposed(s) <==> filled && HedgeFillFull !in es && UnwindFilled !in es)
      && (s == Unwound <==> UnwindFilled in es)
      && (s in {Hedged, Resolving, Settled} <==> HedgeFillFull in es)
      && (s in {Flat, Leg1Working} <==> !filled)
      && !(HedgeFillFull in es && UnwindFilled in es)
  {
    if es != [] {
      var init, e := es[..|es| - 1], es[|es| - 1];
      assert es == init + [e];
      ExposureIsUnresolvedFill(init);
      assert (exists x :: x in es && Fills(x)) <==> (exists x :: x in init && Fills(x)) || Fills(e) by {
        if x :| x in init && Fills(x) { assert x in es; }
        if Fills(e) { assert e in es; }
      }
    }
  }

  function Failures(es: seq<TradeEvent>): nat {
    if es == [] then 0
    else Failures(es[..|es| - 1]) + if es[|es| - 1].HedgeRejected? || es[|es| - 1].HedgeTimeout? then 1 else 0
  }

  /** A hedge is retried once after each failure but the last. */
  lemma {:induction false} FailuresAreRetried(es: seq<TradeEvent>)
    requires Run(es).Some?
    ensures Retries(es) <= Failures(es) <= Retries(es) + 1
    ensures Run(es).value == HedgeFailed ==> Failures(es) == Retries(es) + 1
    ensures Run(es).value in {Flat, Leg1Working, Leg1Partial, Leg1Filled, Hedging, Hedged} ==>
      Failures(es) == Retries(es)
    ensures Run(es).value in {Flat, Leg1Working, Leg1Partial, Leg1Filled} ==> Failures(es) == 0
  {
    if es != [] { FailuresAreRetried(es[..|es| - 1]); }
  }

  /** Whatever the history, the first failure of a hedge calls for working it, the second for crossing the spread,
      and every further one for unwinding the first leg. */
  lemma {:induction false} FailuresEscalate(m: TradeStateMachine)
    requires m.Valid() && m.state == HedgeFailed
    ensures Failures(m.history) >= 1
    ensures m.NextEscalation() ==
      if Failures(m.history) == 1 then WorkTheHedge
      else if Failures(m.history) == 2 then CrossTheSpread
      else UnwindLeg1
  {
    FailuresAreRetried(m.history);
  }

  /** An exposed machine is overdue when it has been longer in its state than five seconds with a whole first leg or
      a failed hedge, ten with a part of it or while hedging, sixty while unwinding. */
  lemma OverdueIff(m: TradeStateMachine, now: real)
    requires Exposed(m.state)
    ensures m.Overdue(now) <==>
      now > m.enteredAt + if m.state in {Leg1Filled, HedgeFailed} then 5.0
                          else if m.state in {Leg1Partial, Hedging} then 10.0
                          else 60.0
  {}

  /** No exposed state is without an age limit, and a resting quote never counts as exposure. */
  lemma ExposedStatesHaveLimits(s: TradeState)
    ensures Exposed(s) ==> s in DEFAULT_MAX_AGE && DEFAULT_MAX_AGE[s] > 0.0
    ensures !Exposed(Leg1Working)
  {}
}
