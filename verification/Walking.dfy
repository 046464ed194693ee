/** No walking, of the quoter's placements (src/arbbot/exec/quoter.py: on_book with _target): the price model of
    Quoting drives the order model of QuoterRun. */
module Walking {
  import opened Core
  import Books
  import Quoting
  import QuoterRun

  /** The prices of our two quotes on a leg. */
  function OwnAt(s: QuoterRun.State, leg: int): Quoting.Own {
    Quoting.Own(PriceAt(s, QuoterRun.Slot(leg, Books.Bid)), PriceAt(s, QuoterRun.Slot(leg, Books.Ask)))
  }

  function PriceAt(s: QuoterRun.State, slot: QuoterRun.Slot): Option<real> {
    if slot in s.resting then Some(s.resting[slot].price) else None
  }

  function SideOf(own: Quoting.Own, side: Books.Side): Option<real> {
    if side.Bid? then own.bid else own.ask
  }

  /** An evaluation of the leg whose target is what _target computes while the competition stands still, whose
      price is not jittered, and whose venue does what it is told. Throttle and risk gate are free. */
  predicate Undisturbed(m: Quoting.Limits, comp: Quoting.Competition, leg: int, s: QuoterRun.State, e: QuoterRun.Event)
    requires Quoting.Sane(m)
  {
    && e.Evaluated? && e.slot.leg == leg && e.x.hasDepth && e.x.tox.None?
    && e.x.target == SideOf(Quoting.Requote(m, comp, OwnAt(s, leg), e.slot.side), e.slot.side)
    && (e.x.target.Some? ==> e.x.price == e.x.target.value)
    && e.x.cancel.CancelDone? && e.x.place.Accepted?
  }

  predicate SendsIn(c: QuoterRun.Config, s: QuoterRun.State, e: QuoterRun.Event) {
    e.Evaluated? && QuoterRun.Sends(c, s, e.slot, e.x, e.now)
  }

  /** Such an evaluation leaves the quotes alone or re-quotes the side; an order is sent only by a re-quote that
      moves it. */
  lemma StepRequotes(c: QuoterRun.Config, m: Quoting.Limits, comp: Quoting.Competition, leg: int,
                     s: QuoterRun.State, e: QuoterRun.Event)
    requires Quoting.Sane(m) && c.deadbandTicks == 0 && QuoterRun.Ok(s) && Undisturbed(m, comp, leg, s, e)
    ensures var (own, next) := (OwnAt(s, leg), OwnAt(QuoterRun.Step(c, s, e), leg));
      && (next == own || next == Quoting.Requote(m, comp, own, e.slot.side))
      && (SendsIn(c, s, e) ==> next != own)
  {
    QuoterRun.EvaluateShape(c, s, e.slot, e.x, e.now);
    var other := QuoterRun.Slot(leg, Quoting.Other(e.slot.side));
    var t := QuoterRun.Step(c, s, e);
    assert PriceAt(t, other) == PriceAt(s, other);
    assert e.slot == QuoterRun.Slot(leg, e.slot.side);
    if SendsIn(c, s, e) { assert PriceAt(t, e.slot) == e.x.target; }
  }

  /** From these quotes on, no order of evaluation moves a quote more than n times. */
  ghost predicate AtMost(m: Quoting.Limits, comp: Quoting.Competition, own: Quoting.Own, n: int)
    requires Quoting.Sane(m)
  {
    forall schedule :: Quoting.Moves(m, comp, own, schedule) <= n
  }

  lemma MoveUsesOne(m: Quoting.Limits, comp: Quoting.Competition, own: Quoting.Own, side: Books.Side, n: int)
    requires Quoting.Sane(m) && AtMost(m, comp, own, n) && Quoting.Requote(m, comp, own, side) != own
    ensures n >= 1 && AtMost(m, comp, Quoting.Requote(m, comp, own, side), n - 1)
  {
    var next := Quoting.Requote(m, comp, own, side);
    forall schedule ensures Quoting.Moves(m, comp, next, schedule) <= n - 1 {
      var longer := [side] + schedule;
      assert longer[0] == side && longer[1..] == schedule;
      assert Quoting.Moves(m, comp, own, longer) == 1 + Quoting.Moves(m, comp, next, schedule);
    }
    assert Quoting.Moves(m, comp, next, []) <= n - 1;
  }

  /** The event concerns another leg: on_book evaluates every leg of the pair in one pass, and the other legs'
      orders may fill and be reported in between. */
  predicate Elsewhere(leg: int, s: QuoterRun.State, e: QuoterRun.Event) {
    match e
    case Evaluated(slot, _, _) => slot.leg != leg
    case PartlyFilled(oid) => oid in s.live ==> s.live[oid].leg != leg
    case FilledAtVenue(oid) => oid in s.live ==> s.live[oid].leg != leg
    case Completed(slot) => slot.leg != leg
    case KillSwitch(_) => false
  }

  /** An evaluation leaves the quote of every other slot alone. */
  lemma OthersKept(c: QuoterRun.Config, s: QuoterRun.State, e: QuoterRun.Event, other: QuoterRun.Slot)
    requires QuoterRun.Ok(s) && e.Evaluated? && other != e.slot
    ensures PriceAt(QuoterRun.Step(c, s, e), other) == PriceAt(s, other)
  {
    QuoterRun.EvaluateShape(c, s, e.slot, e.x, e.now);
    QuoterRun.EffectKeeps(c, s, e.slot, e.x, e.now, QuoterRun.EffectOf(c, s, e.slot, e.x, e.now), other);
  }

  /** What happens elsewhere does not touch the leg's quotes. */
  lemma ElsewhereLeaves(c: QuoterRun.Config, leg: int, s: QuoterRun.State, e: QuoterRun.Event)
    requires QuoterRun.Ok(s) && Elsewhere(leg, s, e)
    ensures OwnAt(QuoterRun.Step(c, s, e), leg) == OwnAt(s, leg)
  {
    var (bid, ask) := (QuoterRun.Slot(leg, Books.Bid), QuoterRun.Slot(leg, Books.Ask));
    match e {
      case Evaluated(_, _, _) =>
        OthersKept(c, s, e, bid);
        OthersKept(c, s, e, ask);
      case Completed(slot) => assert slot != bid && slot != ask;
      case PartlyFilled(_) =>
      case FilledAtVenue(_) => assert QuoterRun.Step(c, s, e).resting == s.resting;
    }
  }

  /** Of this leg the run holds such evaluations only. */
  predicate AllUndisturbed(c: QuoterRun.Config, m: Quoting.Limits, comp: Quoting.Competition, leg: int,
                           s: QuoterRun.State, es: seq<QuoterRun.Event>)
    requires Quoting.Sane(m)
  {
    es == [] || (&& AllUndisturbed(c, m, comp, leg, s, es[..|es| - 1])
                 && var (t, e) := (QuoterRun.Exec(c, s, es[..|es| - 1]), es[|es| - 1]);
                    Elsewhere(leg, t, e) || Undisturbed(m, comp, leg, t, e))
  }

  /** The event sends an order on the leg. */
  predicate SendsOn(c: QuoterRun.Config, leg: int, s: QuoterRun.State, e: QuoterRun.Event) {
    e.Evaluated? && e.slot.leg == leg && SendsIn(c, s, e)
  }

  /** The orders the run sends on the leg. */
  function Placements(c: QuoterRun.Config, leg: int, s: QuoterRun.State, es: seq<QuoterRun.Event>): nat {
    if es == [] then 0
    else
      Placements(c, leg, s, es[..|es| - 1])
      + if SendsOn(c, leg, QuoterRun.Exec(c, s, es[..|es| - 1]), es[|es| - 1]) then 1 else 0
  }

  lemma PlacementStep(c: QuoterRun.Config, m: Quoting.Limits, comp: Quoting.Competition, leg: int,
                      s: QuoterRun.State, e: QuoterRun.Event, n: int)
    requires Quoting.Sane(m) && c.deadbandTicks == 0 && QuoterRun.Ok(s)
    requires Elsewhere(leg, s, e) || Undisturbed(m, comp, leg, s, e)
    requires AtMost(m, comp, OwnAt(s, leg), n)
    ensures AtMost(m, comp, OwnAt(QuoterRun.Step(c, s, e), leg), if SendsOn(c, leg, s, e) then n - 1 else n)
  {
    if Elsewhere(leg, s, e) {
      ElsewhereLeaves(c, leg, s, e);
    } else {
      var (own, next) := (OwnAt(s, leg), OwnAt(QuoterRun.Step(c, s, e), leg));
      StepRequotes(c, m, comp, leg, s, e);
      if next != own { MoveUsesOne(m, comp, own, e.slot.side, n); }
    }
  }

  /** Orders sent and moves still possible stay within what was possible at the start. */
  lemma {:induction false} PlacementsUseUp(c: QuoterRun.Config, m: Quoting.Limits, comp: Quoting.Competition, leg: int,
                                           s: QuoterRun.State, es: seq<QuoterRun.Event>, n: nat)
    requires Quoting.Sane(m) && c.deadbandTicks == 0 && QuoterRun.Ok(s) && AtMost(m, comp, OwnAt(s, leg), n)
    requires QuoterRun.Legal(c, s, es) && AllUndisturbed(c, m, comp, leg, s, es)
    ensures QuoterRun.Ok(QuoterRun.Exec(c, s, es))
    ensures AtMost(m, comp, OwnAt(QuoterRun.Exec(c, s, es), leg), n - Placements(c, leg, s, es))
    ensures Placements(c, leg, s, es) <= n
    decreases |es|
  {
    if es != [] {
      var (init, e) := (es[..|es| - 1], es[|es| - 1]);
      PlacementsUseUp(c, m, comp, leg, s, init, n);
      QuoterRun.StepOk(c, QuoterRun.Exec(c, s, init), e);
      PlacementStep(c, m, comp, leg, QuoterRun.Exec(c, s, init), e, n - Placements(c, leg, s, init));
    }
    assert Quoting.Moves(m, comp, OwnAt(QuoterRun.Exec(c, s, es), leg), []) == 0;
  }

  /** While a leg's competition and its limits stand still, its two sides together send at most three orders,
      from any state of the quoter, in any order of evaluation, throttled or not, whatever happens on the
      other leg meanwhile, and although our own size is in the book. */
  lemma {:induction false} AtMostThreeOrders(c: QuoterRun.Config, m: Quoting.Limits, comp: Quoting.Competition,
                                             leg: int, s: QuoterRun.State, es: seq<QuoterRun.Event>)
    requires Quoting.Sane(m) && c.deadbandTicks == 0 && QuoterRun.Ok(s)
    requires QuoterRun.Legal(c, s, es) && AllUndisturbed(c, m, comp, leg, s, es)
    ensures Placements(c, leg, s, es) <= 3
  {
    forall schedule ensures Quoting.Moves(m, comp, OwnAt(s, leg), schedule) <= 3 {
      Quoting.NoWalking(m, comp, OwnAt(s, leg), schedule);
    }
    PlacementsUseUp(c, m, comp, leg, s, es, 3);
  }
}
