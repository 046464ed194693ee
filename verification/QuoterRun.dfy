/** The quoter's order ownership (src/arbbot/exec/quoter.py: on_book, cancel_all, overdue_alarms) against a
    venue whose replies are chosen freely. */
module QuoterRun {
  import opened Core
  import opened LegRisk
  import Books

  datatype Slot = Slot(leg: int, side: Books.Side)

  /** A tracked order, with the state of its trade machine. */
  datatype Resting = Resting(oid: int, price: real, count: int, state: TradeState)

  /** A placement raises, or is answered without an order id, either way with or without an order coming to
      rest; or it is accepted. */
  datatype PlaceReply = Raising(rests: Option<int>) | Nameless(rests: Option<int>) | Accepted(oid: int)

  /** What one (leg, side) evaluation meets: the target price, the guards, the venue's replies and the
      random draws. */
  datatype Input = Input(target: Option<real>, hasDepth: bool, tox: Option<real>, allowed: bool, size: int,
                         price: real, deadband: real, cancel: CancelReply, place: PlaceReply)

  datatype Intent =
    | Placed(slot: Slot, oid: int, replaced: Option<int>)
    | Cancelled(slot: Slot, oid: int)
    | PlaceFailed(slot: Slot)
    | Skipped

  /** The quoter's fields, and the venue's side of them: live orders with their slot, the ids ever issued,
      and the orders whose end was handled by a fill or a cancel-all. */
  datatype State = State(resting: map<Slot, Resting>, last: map<Slot, real>, failed: set<Slot>,
                         deadband: map<Slot, real>, intents: seq<Intent>,
                         live: map<int, Slot>, used: set<int>, closed: set<int>)

  const EMPTY := State(map[], map[], {}, map[], [], map[], {}, {})

  datatype Config = Config(minRequote: real, deadbandTicks: int)

  const TOXGATE_MAX := 0.03

  function Viable(x: Input): Option<real> {
    if x.hasDepth && !(x.tox.Some? && x.tox.value > TOXGATE_MAX) then x.target else None
  }

  /** Keep the quote: on the profitable side of the target and within its deadband. */
  predicate Hold(c: Config, price: real, deadband: map<Slot, real>, slot: Slot, target: real) {
    if c.deadbandTicks <= 0 then price == target
    else
      var db := if slot in deadband then deadband[slot] else 0.0;
      if slot.side.Bid? then target - db <= price <= target else target <= price <= target + db
  }

  function LastQuote(s: State, slot: Slot): real {
    if slot in s.last then s.last[slot] else 0.0
  }

  /** This evaluation gets as far as wanting to send an order. */
  predicate Wants(c: Config, s: State, slot: Slot, x: Input, now: real) {
    && Viable(x).Some?
    && !(slot in s.resting && Hold(c, s.resting[slot].price, s.deadband, slot, Viable(x).value))
    && now - LastQuote(s, slot) >= c.minRequote
  }

  /** ... and does send it: the replaced quote, if any, was cancelled first. */
  predicate Sends(c: Config, s: State, slot: Slot, x: Input, now: real) {
    Wants(c, s, slot, x, now) && x.allowed && (slot in s.resting ==> x.cancel.CancelDone?)
  }

  /** The quoter's cancel went through. */
  function Pulled(s: State, slot: Slot): State
    requires slot in s.resting
  {
    s.(resting := s.resting - {slot}, live := s.live - {s.resting[slot].oid})
  }

  /** The quoter's cancel raised: the venue may have acted on it all the same. */
  function CancelLost(s: State, slot: Slot, gone: bool): State
    requires slot in s.resting
  {
    if gone then s.(live := s.live - {s.resting[slot].oid}) else s
  }

  /** What a placement writes to the activity feed: a move or a new order, or the failure, with the cancel
      that preceded it. */
  function PlaceIntents(slot: Slot, x: Input, replaced: Option<int>): seq<Intent> {
    if x.place.Accepted? then [Placed(slot, x.place.oid, replaced)]
    else if replaced.Some? then [Cancelled(slot, replaced.value), PlaceFailed(slot)]
    else [PlaceFailed(slot)]
  }

  function PlaceResult(s: State, slot: Slot, x: Input, now: real, replaced: Option<int>): State {
    match x.place
    case Accepted(oid) =>
      s.(resting := s.resting[slot := Resting(oid, x.price, x.size, Leg1Working)], last := s.last[slot := now],
         failed := s.failed - {slot}, live := s.live[oid := slot], used := s.used + {oid},
         intents := s.intents + PlaceIntents(slot, x, replaced))
    case _ =>
      var t := s.(last := s.last[slot := now], failed := s.failed + {slot},
                  intents := s.intents + PlaceIntents(slot, x, replaced));
      if x.place.rests.Some?
      then t.(live := t.live[x.place.rests.value := slot], used := t.used + {x.place.rests.value})
      else t
  }

  /** Withdrawing a side that has no viable target. */
  function Withdraw(s: State, slot: Slot, x: Input): State {
    if slot !in s.resting then s
    else if x.cancel.CancelFailed? then CancelLost(s, slot, x.cancel.gone)
    else
      var t := s.(live := s.live - {s.resting[slot].oid});
      if Next(s.resting[slot].state, Leg1Cancelled).None? then t
      else t.(resting := t.resting - {slot}, intents := t.intents + [Cancelled(slot, s.resting[slot].oid)])
  }

  /** One pass of on_book's loop for a (leg, side). */
  function Evaluate(c: Config, s: State, slot: Slot, x: Input, now: real): State {
    var noted := if x.target.Some? && x.hasDepth && Viable(x).None? then s.(intents := s.intents + [Skipped]) else s;
    if Viable(x).None? then Withdraw(noted, slot, x)
    else if !Wants(c, s, slot, x, now) then s
    else if !x.allowed then s.(intents := s.intents + [Skipped])
    else if slot !in s.resting then WithDeadband(c, PlaceResult(s, slot, x, now, None), slot, x)
    else if x.cancel.CancelFailed? then CancelLost(s, slot, x.cancel.gone)
    else WithDeadband(c, PlaceResult(Pulled(s, slot), slot, x, now, Some(s.resting[slot].oid)), slot, x)
  }

  function WithDeadband(c: Config, s: State, slot: Slot, x: Input): State {
    if x.place.Accepted? && c.deadbandTicks > 0 then s.(deadband := s.deadband[slot := x.deadband]) else s
  }

  /** An exception leaves on_book: a raised cancel, or an invalid transition. */
  predicate Raises(c: Config, s: State, slot: Slot, x: Input, now: real) {
    && slot in s.resting
    && (if Viable(x).None? then x.cancel.CancelFailed? || Next(s.resting[slot].state, Leg1Cancelled).None?
        else Wants(c, s, slot, x, now) && x.allowed && x.cancel.CancelFailed?)
  }

  /** How the venue met the kill switch: per tracked slot whether its order is gone, and the legs whose
      gateway swept everything. */
  datatype Sweep = Sweep(gone: set<Slot>, legs: set<int>)

  function CancelAllState(s: State, w: Sweep): State {
    s.(resting := map[], last := s.last - s.resting.Keys,
       live := map oid | oid in s.live && s.live[oid].leg !in w.legs && oid !in Ids(s, w.gone) :: s.live[oid],
       closed := s.closed + Ids(s, s.resting.Keys))
  }

  /** The tracked order ids of some slots. */
  function Ids(s: State, slots: set<Slot>): set<int> {
    set slot | slot in slots && slot in s.resting :: s.resting[slot].oid
  }

  function Tracked(s: State): set<int> {
    Ids(s, s.resting.Keys)
  }

  // ---------- the program ----------

  class Quoter {
    const c: Config
    var resting: map<Slot, Resting>
    var last: map<Slot, real>
    var placeFailed: set<Slot>
    var deadband: map<Slot, real>
    var intents: seq<Intent>
    ghost var live: map<int, Slot>
    ghost var used: set<int>
    ghost var closed: set<int>

    ghost function Now(): State
      reads this
    {
      State(resting, last, placeFailed, deadband, intents, live, used, closed)
    }

    constructor (c: Config)
      ensures Now() == EMPTY && this.c == c
    {
      this.c := c;
      resting, last, placeFailed, deadband, intents := map[], map[], {}, map[], [];
      live, used, closed := map[], {}, {};
    }

    method ApplyWithdraw(slot: Slot, x: Input) returns (raised: bool)
      modifies this
      ensures Now() == Withdraw(old(Now()), slot, x)
      ensures raised <==>
        slot in old(resting) && (x.cancel.CancelFailed? || Next(old(resting)[slot].state, Leg1Cancelled).None?)
    {
      if slot !in resting { return false; }
      var oid := resting[slot].oid;
      if x.cancel.CancelFailed? {
        if x.cancel.gone { live := live - {oid}; }
        return true;
      }
      live := live - {oid};
      var next := Next(resting[slot].state, Leg1Cancelled);
      if next.None? { return true; }
      intents := intents + [Cancelled(slot, oid)];
      resting := resting - {slot};
      return false;
    }

    method ApplyPlace(slot: Slot, x: Input, now: real, replaced: Option<int>)
      modifies this
      ensures Now() == WithDeadband(c, PlaceResult(old(Now()), slot, x, now, replaced), slot, x)
    {
      if x.place.Accepted? {
        placeFailed := placeFailed - {slot};
        var state := Next(Flat, PlaceLeg1);
        resting := resting[slot := Resting(x.place.oid, x.price, x.size, state.value)];
        last := last[slot := now];
        if c.deadbandTicks > 0 { deadband := deadband[slot := x.deadband]; }
        intents := intents + [Placed(slot, x.place.oid, replaced)];
        live, used := live[x.place.oid := slot], used + {x.place.oid};
      } else {
        placeFailed := placeFailed + {slot};
        last := last[slot := now];
        if replaced.Some? { intents := intents + [Cancelled(slot, replaced.value)]; }
        intents := intents + [PlaceFailed(slot)];
        assert intents == old(intents) + PlaceIntents(slot, x, replaced);
        if x.place.rests.Some? {
          live, used := live[x.place.rests.value := slot], used + {x.place.rests.value};
        }
      }
    }

    /** The back-off of a side whose last placement failed never decides anything: the throttle before it
        tests the same clock. */
    method EvaluateSlot(slot: Slot, x: Input, now: real) returns (raised: bool)
      modifies this
      ensures Now() == Evaluate(c, old(Now()), slot, x, now)
      ensures raised <==> Raises(c, old(Now()), slot, x, now)
    {
      var target := x.target;
      if target.Some? && !x.hasDepth { target := None; }
      if target.Some? && x.tox.Some? && x.tox.value > TOXGATE_MAX {
        intents := intents + [Skipped];
        target := None;
      }
      if target.None? {
        raised := ApplyWithdraw(slot, x);
        return;
      }
      if slot in resting && Hold(c, resting[slot].price, deadband, slot, target.value) { return false; }
      var since := now - if slot in last then last[slot] else 0.0;
      if since < c.minRequote { return false; }
      if slot in placeFailed && since < c.minRequote { return false; }
      if !x.allowed {
        intents := intents + [Skipped];
        return false;
      }
      var replaced := None;
      if slot in resting {
        if x.cancel.CancelFailed? {
          if x.cancel.gone { live := live - {resting[slot].oid}; }
          return true;
        }
        replaced := Some(resting[slot].oid);
        live := live - {resting[slot].oid};
        resting := resting - {slot};
      }
      ApplyPlace(slot, x, now, replaced);
      return false;
    }

    /** The loop of on_book. An exception ends it: n passes were made. */
    method OnBook(kill: bool, w: Sweep, passes: seq<Event>) returns (raised: bool, n: nat)
      requires forall e :: e in passes ==> e.Evaluated?
      modifies this
      ensures n <= |passes| && (kill ==> n == 0 && !raised && Now() == Step(c, old(Now()), KillSwitch(w)))
      ensures !kill ==> Now() == Exec(c, old(Now()), passes[..n]) && (!raised ==> n == |passes|)
      ensures !kill && raised ==> n > 0 && RaisesIn(c, old(Now()), passes, n - 1)
      ensures forall k :: 0 <= k < n && !(raised && k == n - 1) ==> !RaisesIn(c, old(Now()), passes, k)
    {
      if kill {
        CancelAll(w);
        return false, 0;
      }
      n := 0;
      while n < |passes|
        invariant n <= |passes| && Now() == Exec(c, old(Now()), passes[..n])
        invariant forall k :: 0 <= k < n ==> !RaisesIn(c, old(Now()), passes, k)
      {
        raised := EvaluateSlot(passes[n].slot, passes[n].x, passes[n].now);
        assert passes[..n + 1][..n] == passes[..n];
        n := n + 1;
        if raised { return; }
      }
      return false, n;
    }

    method CancelAll(w: Sweep)
      modifies this
      ensures Now() == CancelAllState(old(Now()), w)
    {
      ghost var s := Now();
      var todo := resting.Keys;
      closed := closed + Tracked(s);
      assert Now() == Dropped(s, w, s.resting.Keys - todo) by { assert s.resting.Keys - todo == {}; }
      while todo != {}
        invariant todo <= s.resting.Keys
        invariant Now() == Dropped(s, w, s.resting.Keys - todo)
        decreases todo
      {
        var slot :| slot in todo;
        DropOne(s, w, todo, slot);
        if slot in w.gone { live := live - {resting[slot].oid}; }
        resting := resting - {slot};
        last := last - {slot};
        todo := todo - {slot};
      }
      DropAll(s, w);
      assert s.resting.Keys - todo == s.resting.Keys;
      live := map oid | oid in live && live[oid].leg !in w.legs :: live[oid];
    }
  }

  function StillLive(s: State, gone: set<int>): map<int, Slot> {
    map oid | oid in s.live && oid !in gone :: s.live[oid]
  }

  /** Halfway through the kill switch: the slots in done have been dealt with. */
  function Dropped(s: State, w: Sweep, done: set<Slot>): State {
    s.(resting := s.resting - done, last := s.last - done, live := StillLive(s, Ids(s, w.gone * done)),
       closed := s.closed + Tracked(s))
  }

  lemma DropOne(s: State, w: Sweep, todo: set<Slot>, slot: Slot)
    requires todo <= s.resting.Keys && slot in todo
    ensures var (d, d') := (Dropped(s, w, s.resting.Keys - todo), Dropped(s, w, s.resting.Keys - (todo - {slot})));
      && slot in d.resting && d.resting[slot] == s.resting[slot]
      && d' == d.(resting := d.resting - {slot}, last := d.last - {slot},
                  live := if slot in w.gone then d.live - {s.resting[slot].oid} else d.live)
  {
    var done := s.resting.Keys - todo;
    assert s.resting.Keys - (todo - {slot}) == done + {slot};
    var ids, ids' := Ids(s, w.gone * done), Ids(s, w.gone * (done + {slot}));
    if slot in w.gone {
      assert w.gone * (done + {slot}) == w.gone * done + {slot};
      IdsAdd(s, w.gone * done, slot);
      assert StillLive(s, ids') == StillLive(s, ids) - {s.resting[slot].oid};
    } else {
      assert w.gone * (done + {slot}) == w.gone * done;
    }
    assert s.resting - (done + {slot}) == s.resting - done - {slot};
    assert s.last - (done + {slot}) == s.last - done - {slot};
  }

  lemma IdsAdd(s: State, slots: set<Slot>, slot: Slot)
    requires slot in s.resting
    ensures Ids(s, slots + {slot}) == Ids(s, slots) + {s.resting[slot].oid}
  {}

  lemma DropAll(s: State, w: Sweep)
    ensures var d := Dropped(s, w, s.resting.Keys);
      CancelAllState(s, w) == d.(live := map oid | oid in d.live && d.live[oid].leg !in w.legs :: d.live[oid])
  {
    var d := Dropped(s, w, s.resting.Keys);
    assert Ids(s, w.gone * s.resting.Keys) == Ids(s, w.gone);
    assert s.resting - s.resting.Keys == map[];
    assert CancelAllState(s, w).live == map oid | oid in d.live && d.live[oid].leg !in w.legs :: d.live[oid];
  }

  // ---------- whole runs ----------

  /** An evaluation; a partial fill, after which the order is as live and as tracked as before; a full fill at
      the venue; a fill report that completes a tracked quote (_process_fill); the kill switch. */
  datatype Event =
    | Evaluated(slot: Slot, x: Input, now: real)
    | PartlyFilled(oid: int)
    | FilledAtVenue(oid: int)
    | Completed(slot: Slot)
    | KillSwitch(w: Sweep)

  function Step(c: Config, s: State, e: Event): State {
    match e
    case Evaluated(slot, x, now) => Evaluate(c, s, slot, x, now)
    case PartlyFilled(_) => s
    case FilledAtVenue(oid) => s.(live := s.live - {oid})
    case Completed(slot) =>
      if slot in s.resting
      then s.(resting := s.resting - {slot}, last := s.last - {slot}, closed := s.closed + {s.resting[slot].oid})
      else s
    case KillSwitch(w) => CancelAllState(s, w)
  }

  function Exec(c: Config, s: State, es: seq<Event>): State {
    if es == [] then s else Step(c, Exec(c, s, es[..|es| - 1]), es[|es| - 1])
  }

  predicate RaisesIn(c: Config, s: State, es: seq<Event>, k: nat)
    requires k < |es| && es[k].Evaluated?
  {
    Raises(c, Exec(c, s, es[..k]), es[k].slot, es[k].x, es[k].now)
  }

  /** The venue issues fresh ids, fills live orders, and reports a quote complete only when it is. */
  predicate Possible(s: State, e: Event) {
    match e
    case Evaluated(_, x, _) => (
      match x.place
      case Accepted(oid) => oid !in s.used
      case Raising(rests) => rests.Some? ==> rests.value !in s.used
      case Nameless(rests) => rests.Some? ==> rests.value !in s.used)
    case PartlyFilled(oid) => oid in s.live
    case FilledAtVenue(oid) => oid in s.live
    case Completed(slot) => slot in s.resting ==> s.resting[slot].oid !in s.live
    case KillSwitch(_) => true
  }

  predicate Legal(c: Config, s: State, es: seq<Event>) {
    es == [] || (Legal(c, s, es[..|es| - 1]) && Possible(Exec(c, s, es[..|es| - 1]), es[|es| - 1]))
  }

  predicate SlotOk(s: State, slot: Slot) {
    slot in s.resting ==>
      var r := s.resting[slot];
      && r.state == Leg1Working && r.oid in s.used && r.oid !in s.closed
      && (r.oid in s.live ==> s.live[r.oid] == slot)
  }

  ghost predicate Distinct(s: State) {
    forall a, b :: a in s.resting && b in s.resting && s.resting[a].oid == s.resting[b].oid ==> a == b
  }

  ghost predicate Ok(s: State) {
    && (forall slot :: SlotOk(s, slot)) && Distinct(s)
    && s.live.Keys <= s.used && s.closed <= s.used
  }

  lemma PullOk(s: State, slot: Slot)
    requires Ok(s) && slot in s.resting
    ensures Ok(Pulled(s, slot)) && Ok(CancelLost(s, slot, true))
    ensures Tracked(Pulled(s, slot)) == Tracked(s) - {s.resting[slot].oid}
  {
    forall x ensures SlotOk(Pulled(s, slot), x) && SlotOk(CancelLost(s, slot, true), x) { assert SlotOk(s, x); }
    UntrackOne(s, slot);
  }

  lemma UntrackOne(s: State, slot: Slot)
    requires Distinct(s) && slot in s.resting
    ensures Tracked(s.(resting := s.resting - {slot})) == Tracked(s) - {s.resting[slot].oid}
  {
    var t := s.(resting := s.resting - {slot});
    forall oid | oid in Tracked(s) && oid != s.resting[slot].oid ensures oid in Tracked(t) {
      var x :| x in s.resting && s.resting[x].oid == oid;
      assert x in t.resting;
    }
  }

  lemma PlaceOk(s: State, slot: Slot, x: Input, now: real, replaced: Option<int>)
    requires Ok(s) && slot !in s.resting && Possible(s, Evaluated(slot, x, now))
    ensures Ok(PlaceResult(s, slot, x, now, replaced))
    ensures Tracked(PlaceResult(s, slot, x, now, replaced)) ==
      if x.place.Accepted? then Tracked(s) + {x.place.oid} else Tracked(s)
  {
    var t := PlaceResult(s, slot, x, now, replaced);
    forall y ensures SlotOk(t, y) { assert SlotOk(s, y); }
    if x.place.Accepted? {
      forall y | y in s.resting ensures s.resting[y].oid != x.place.oid { assert SlotOk(s, y); }
      assert Distinct(t);
      assert t.resting[slot].oid == x.place.oid;
      forall y | y in s.resting ensures y in t.resting && t.resting[y] == s.resting[y] {}
    }
  }

  /** What an evaluation comes to: an order is sent, the slot's quote is withdrawn, its cancel is lost though
      it worked, or nothing happens to any order; a toxic side or a refused order is noted. */
  datatype Effect = Placing | Withdrawn(noted: bool) | CancelMissed(noted: bool) | Kept(noted: bool)

  function EffectOf(c: Config, s: State, slot: Slot, x: Input, now: real): Effect {
    var toxic := x.target.Some? && x.hasDepth && Viable(x).None?;
    if Sends(c, s, slot, x, now) then Placing
    else if Raises(c, s, slot, x, now) && x.cancel == CancelFailed(true) then CancelMissed(toxic)
    else if Viable(x).None? && slot in s.resting && x.cancel.CancelDone? then Withdrawn(toxic)
    else Kept(toxic || (Wants(c, s, slot, x, now) && !x.allowed))
  }

  function Base(s: State, slot: Slot): State {
    if slot in s.resting then Pulled(s, slot) else s
  }

  function Replaced(s: State, slot: Slot): Option<int> {
    if slot in s.resting then Some(s.resting[slot].oid) else None
  }

  function Notes(noted: bool): seq<Intent> {
    if noted then [Skipped] else []
  }

  function Effected(c: Config, s: State, slot: Slot, x: Input, now: real, e: Effect): State
    requires e.Withdrawn? || e.CancelMissed? ==> slot in s.resting
  {
    match e
    case Placing => WithDeadband(c, PlaceResult(Base(s, slot), slot, x, now, Replaced(s, slot)), slot, x)
    case Withdrawn(noted) =>
      Pulled(s, slot).(intents := s.intents + Notes(noted) + [Cancelled(slot, s.resting[slot].oid)])
    case CancelMissed(noted) => CancelLost(s, slot, true).(intents := s.intents + Notes(noted))
    case Kept(noted) => s.(intents := s.intents + Notes(noted))
  }

  lemma EvaluateShape(c: Config, s: State, slot: Slot, x: Input, now: real)
    requires Ok(s)
    ensures var e := EffectOf(c, s, slot, x, now);
      && (e.Withdrawn? || e.CancelMissed? ==> slot in s.resting)
      && Evaluate(c, s, slot, x, now) == Effected(c, s, slot, x, now, e)
  {
    assert SlotOk(s, slot);
    assert s.intents + [] == s.intents;
  }

  /** What a placement tracks. */
  lemma PlaceTracks(c: Config, s: State, slot: Slot, x: Input, now: real, replaced: Option<int>)
    ensures WithDeadband(c, PlaceResult(s, slot, x, now, replaced), slot, x).resting ==
      if x.place.Accepted? then s.resting[slot := Resting(x.place.oid, x.price, x.size, Leg1Working)] else s.resting
  {}

  lemma EffectKeeps(c: Config, s: State, slot: Slot, x: Input, now: real, e: Effect, other: Slot)
    requires (e.Withdrawn? || e.CancelMissed? ==> slot in s.resting) && other != slot
    ensures other in Effected(c, s, slot, x, now, e).resting <==> other in s.resting
    ensures other in s.resting ==> Effected(c, s, slot, x, now, e).resting[other] == s.resting[other]
  {
    if e.Placing? { PlaceTracks(c, Base(s, slot), slot, x, now, Replaced(s, slot)); }
  }

  lemma SlotsOkTogether(s: State, t: State)
    requires Ok(s) && t.resting == s.resting && t.live == s.live && t.used == s.used && t.closed == s.closed
    ensures Ok(t)
  {
    forall y ensures SlotOk(t, y) { assert SlotOk(s, y); }
  }

  lemma {:induction false} EvaluateOk(c: Config, s: State, slot: Slot, x: Input, now: real)
    requires Ok(s) && Possible(s, Evaluated(slot, x, now))
    ensures Ok(Evaluate(c, s, slot, x, now))
  {
    var (e, t) := (EffectOf(c, s, slot, x, now), Evaluate(c, s, slot, x, now));
    EvaluateShape(c, s, slot, x, now);
    if slot in s.resting { PullOk(s, slot); }
    match e {
      case Placing =>
        PlaceOk(Base(s, slot), slot, x, now, Replaced(s, slot));
        SlotsOkTogether(PlaceResult(Base(s, slot), slot, x, now, Replaced(s, slot)), t);
      case Withdrawn(_) => SlotsOkTogether(Pulled(s, slot), t);
      case CancelMissed(_) => SlotsOkTogether(CancelLost(s, slot, true), t);
      case Kept(_) => SlotsOkTogether(s, t);
    }
  }

  lemma StepOk(c: Config, s: State, e: Event)
    requires Ok(s) && Possible(s, e)
    ensures Ok(Step(c, s, e))
  {
    var t := Step(c, s, e);
    match e {
      case Evaluated(slot, x, now) => EvaluateOk(c, s, slot, x, now);
      case Completed(slot) =>
        assert SlotOk(s, slot);
        forall y ensures SlotOk(t, y) { assert SlotOk(s, y); }
      case PartlyFilled(_) =>
      case FilledAtVenue(_) => forall y ensures SlotOk(t, y) { assert SlotOk(s, y); }
      case KillSwitch(_) =>
        forall y | y in s.resting ensures s.resting[y].oid in s.used { assert SlotOk(s, y); }
    }
  }

  lemma {:induction false} RunOk(c: Config, es: seq<Event>)
    requires Legal(c, EMPTY, es)
    ensures Ok(Exec(c, EMPTY, es))
  {
    if es != [] {
      RunOk(c, es[..|es| - 1]);
      StepOk(c, Exec(c, EMPTY, es[..|es| - 1]), es[|es| - 1]);
    }
  }

  /** No transition of a tracked machine ever raises, and the alarm scan never has anything to report: a
      tracked quote is working its first leg, which is no exposure. */
  lemma {:induction false} AlarmsAreSilent(c: Config, es: seq<Event>, slot: Slot)
    requires Legal(c, EMPTY, es) && slot in Exec(c, EMPTY, es).resting
    ensures var state := Exec(c, EMPTY, es).resting[slot].state;
      !Exposed(state) && Next(state, Leg1Cancelled).Some?
  {
    RunOk(c, es);
    TrackedIsWorking(Exec(c, EMPTY, es), slot);
  }

  lemma TrackedIsWorking(s: State, slot: Slot)
    requires Ok(s) && slot in s.resting
    ensures s.resting[slot].state == Leg1Working && !Exposed(Leg1Working) && Next(Leg1Working, Leg1Cancelled).Some?
  {
    assert SlotOk(s, slot);
  }

  // ---------- orphans ----------

  /** Orders live at the venue that the quoter does not track. */
  function Orphans(s: State): set<int> {
    s.live.Keys - Tracked(s)
  }

  /** The event leaves nothing behind: no order rests whose id is not reported, and the kill switch's
      cancel of each live tracked order worked or its leg was swept. */
  predicate Careful(c: Config, s: State, e: Event) {
    match e
    case Evaluated(slot, x, now) => Sends(c, s, slot, x, now) && !x.place.Accepted? ==> x.place.rests.None?
    case KillSwitch(w) =>
      forall slot :: slot in s.resting && s.resting[slot].oid in s.live ==> slot in w.gone || slot.leg in w.legs
    case _ => true
  }

  /** The order a slot holds. */
  function Own(s: State, slot: Slot): set<int> {
    if slot in s.resting then {s.resting[slot].oid} else {}
  }

  /** The order that an evaluation's placement brings to rest, reported or not. */
  function NewOrder(x: Input): set<int> {
    match x.place
    case Accepted(oid) => {oid}
    case Raising(rests) => if rests.Some? then {rests.value} else {}
    case Nameless(rests) => if rests.Some? then {rests.value} else {}
  }

  lemma TrackedIsUsed(s: State)
    requires Ok(s)
    ensures Tracked(s) <= s.used
  {
    forall y | y in s.resting ensures s.resting[y].oid in s.used { assert SlotOk(s, y); }
  }

  lemma SameTracked(s: State, t: State)
    requires t.resting == s.resting
    ensures Tracked(t) == Tracked(s)
  {}

  lemma PlacedLive(s: State, slot: Slot, x: Input, now: real, replaced: Option<int>)
    ensures var t := PlaceResult(s, slot, x, now, replaced);
      t.live.Keys == s.live.Keys + NewOrder(x) && t.used == s.used + NewOrder(x) && t.closed == s.closed
  {}

  lemma BaseIs(s: State, slot: Slot)
    requires Ok(s)
    ensures Ok(Base(s, slot)) && Base(s, slot).live.Keys == s.live.Keys - Own(s, slot)
    ensures Tracked(Base(s, slot)) == Tracked(s) - Own(s, slot)
    ensures Base(s, slot).used == s.used && Base(s, slot).closed == s.closed && Base(s, slot).intents == s.intents
  {
    if slot in s.resting { PullOk(s, slot); } else { LiveWithoutOwn(s, slot); }
  }

  lemma LiveWithoutOwn(s: State, slot: Slot)
    requires slot !in s.resting
    ensures Own(s, slot) == {} && s.live.Keys - {} == s.live.Keys && Tracked(s) - {} == Tracked(s)
  {}

  /** An order that is sent takes the place of the slot's own. */
  lemma SendsTracks(c: Config, s: State, slot: Slot, x: Input, now: real)
    requires Ok(s) && Possible(s, Evaluated(slot, x, now)) && Sends(c, s, slot, x, now)
    ensures var t := Evaluate(c, s, slot, x, now);
      && t.live.Keys == s.live.Keys - Own(s, slot) + NewOrder(x) && t.used == s.used + NewOrder(x)
      && t.closed == s.closed
      && Tracked(t) == Tracked(s) - Own(s, slot) + (if x.place.Accepted? then {x.place.oid} else {})
      && t.intents == s.intents + PlaceIntents(slot, x, Replaced(s, slot))
  {
    var (base, replaced) := (Base(s, slot), Replaced(s, slot));
    EvaluateShape(c, s, slot, x, now);
    BaseIs(s, slot);
    PlaceOk(base, slot, x, now, replaced);
    PlacedLive(base, slot, x, now, replaced);
    SameTracked(PlaceResult(base, slot, x, now, replaced), Evaluate(c, s, slot, x, now));
  }

  lemma HiddenIs(c: Config, s: State, slot: Slot, x: Input, now: real)
    requires !Sends(c, s, slot, x, now)
    ensures Hidden(c, s, Evaluated(slot, x, now)) ==
      if EffectOf(c, s, slot, x, now).CancelMissed? then Own(s, slot) else {}
  {}

  /** Without one, the tracked orders lose the slot's own exactly when it was withdrawn, and the live orders
      lose it then or when its cancel raised but worked. */
  lemma OtherTracks(c: Config, s: State, slot: Slot, x: Input, now: real)
    requires Ok(s) && !Sends(c, s, slot, x, now)
    ensures var (t, e) := (Evaluate(c, s, slot, x, now), EffectOf(c, s, slot, x, now));
      && t.used == s.used && t.closed == s.closed && !e.Placing?
      && Hidden(c, s, Evaluated(slot, x, now)) == (if e.CancelMissed? then Own(s, slot) else {})
      && t.live.Keys == s.live.Keys - (if e.Kept? then {} else Own(s, slot))
      && Tracked(t) == Tracked(s) - (if e.Withdrawn? then Own(s, slot) else {})
  {
    var (t, e) := (Evaluate(c, s, slot, x, now), EffectOf(c, s, slot, x, now));
    EvaluateShape(c, s, slot, x, now);
    HiddenIs(c, s, slot, x, now);
    BaseIs(s, slot);
    if e.Withdrawn? { SameTracked(Base(s, slot), t); } else { SameTracked(s, t); }
  }

  lemma OtherIntents(c: Config, s: State, slot: Slot, x: Input, now: real)
    requires Ok(s) && !Sends(c, s, slot, x, now)
    ensures var (t, e) := (Evaluate(c, s, slot, x, now), EffectOf(c, s, slot, x, now));
      && !e.Placing?
      && t.intents == s.intents + Notes(e.noted)
                      + if e.Withdrawn? && slot in s.resting then [Cancelled(slot, s.resting[slot].oid)] else []
  {
    var e := EffectOf(c, s, slot, x, now);
    EvaluateShape(c, s, slot, x, now);
    assert s.intents + Notes(e.noted) + [] == s.intents + Notes(e.noted);
  }

  lemma OwnIsTracked(s: State, slot: Slot)
    ensures Own(s, slot) <= Tracked(s)
  {}

  lemma EvaluateOrphans(c: Config, s: State, slot: Slot, x: Input, now: real)
    requires Ok(s) && Possible(s, Evaluated(slot, x, now)) && Orphans(s) == {}
    ensures Orphans(Evaluate(c, s, slot, x, now)) ==
      if Sends(c, s, slot, x, now) && !x.place.Accepted? then NewOrder(x) else {}
  {
    OwnIsTracked(s, slot);
    TrackedIsUsed(s);
    if Sends(c, s, slot, x, now) { SendsTracks(c, s, slot, x, now); } else { OtherTracks(c, s, slot, x, now); }
  }

  lemma SweepOrphans(s: State, w: Sweep)
    requires Ok(s) && Orphans(s) == {}
    ensures Orphans(CancelAllState(s, w)) == {} <==>
      forall slot :: slot in s.resting && s.resting[slot].oid in s.live ==> slot in w.gone || slot.leg in w.legs
  {
    var t := CancelAllState(s, w);
    assert Orphans(t) == t.live.Keys;
    if Orphans(t) == {} {
      forall slot | slot in s.resting && s.resting[slot].oid in s.live ensures slot in w.gone || slot.leg in w.legs {
        var oid := s.resting[slot].oid;
        assert SlotOk(s, slot);
        assert oid !in t.live;
        if oid in Ids(s, w.gone) {
          var other :| other in w.gone && other in s.resting && s.resting[other].oid == oid;
          assert other == slot;
        }
      }
    }
    if forall slot :: slot in s.resting && s.resting[slot].oid in s.live ==> slot in w.gone || slot.leg in w.legs {
      forall oid | oid in s.live ensures oid !in t.live {
        assert oid !in Orphans(s);
        var slot :| slot in s.resting && s.resting[slot].oid == oid;
        assert SlotOk(s, slot);
      }
    }
  }

  /** With no orphan before, there is none after exactly when the event was careful. */
  lemma OrphanIff(c: Config, s: State, e: Event)
    requires Ok(s) && Possible(s, e) && Orphans(s) == {}
    ensures Orphans(Step(c, s, e)) == {} <==> Careful(c, s, e)
  {
    match e {
      case Evaluated(slot, x, now) => EvaluateOrphans(c, s, slot, x, now);
      case PartlyFilled(_) =>
      case FilledAtVenue(oid) => assert Tracked(Step(c, s, e)) == Tracked(s);
      case Completed(slot) => if slot in s.resting { UntrackOne(s, slot); }
      case KillSwitch(w) => SweepOrphans(s, w);
    }
  }

  predicate AllCareful(c: Config, s: State, es: seq<Event>) {
    es == [] || (AllCareful(c, s, es[..|es| - 1]) && Careful(c, Exec(c, s, es[..|es| - 1]), es[|es| - 1]))
  }

  /** Orders whose end the event hides from the quoter: filled, or cancelled by a request that raised. */
  function Hidden(c: Config, s: State, e: Event): set<int> {
    match e
    case FilledAtVenue(oid) => {oid}
    case Evaluated(slot, x, now) =>
      if Raises(c, s, slot, x, now) && x.cancel == CancelFailed(true) then {s.resting[slot].oid} else {}
    case _ => {}
  }

  function EverHidden(c: Config, s: State, es: seq<Event>): set<int> {
    if es == [] then {}
    else EverHidden(c, s, es[..|es| - 1]) + Hidden(c, Exec(c, s, es[..|es| - 1]), es[|es| - 1])
  }

  lemma EvaluateHidden(c: Config, s: State, slot: Slot, x: Input, now: real, hidden: set<int>)
    requires Ok(s) && Possible(s, Evaluated(slot, x, now)) && Careful(c, s, Evaluated(slot, x, now))
    requires s.live.Keys == Tracked(s) - hidden && hidden <= s.used
    ensures var (t, h) := (Evaluate(c, s, slot, x, now), hidden + Hidden(c, s, Evaluated(slot, x, now)));
      t.live.Keys == Tracked(t) - h && h <= t.used
  {
    OwnIsTracked(s, slot);
    TrackedIsUsed(s);
    if Sends(c, s, slot, x, now) { SendsTracks(c, s, slot, x, now); } else { OtherTracks(c, s, slot, x, now); }
  }

  lemma HiddenStep(c: Config, s: State, e: Event, hidden: set<int>)
    requires Ok(s) && Possible(s, e) && Orphans(s) == {} && Careful(c, s, e)
    requires s.live.Keys == Tracked(s) - hidden && hidden <= s.used
    ensures var (t, h) := (Step(c, s, e), hidden + Hidden(c, s, e)); t.live.Keys == Tracked(t) - h && h <= t.used
  {
    match e {
      case Evaluated(slot, x, now) => EvaluateHidden(c, s, slot, x, now, hidden);
      case PartlyFilled(_) =>
      case FilledAtVenue(oid) => assert Tracked(Step(c, s, e)) == Tracked(s);
      case Completed(slot) => if slot in s.resting { UntrackOne(s, slot); }
      case KillSwitch(w) =>
        SweepOrphans(s, w);
        assert Tracked(Step(c, s, e)) == {};
    }
  }

  /** No orphans: after any careful run the live orders are exactly the tracked ones, save those whose fill
      or lost cancel the quoter has not been told of, and no (leg, side) has two. */
  lemma {:induction false} LiveIsTracked(c: Config, es: seq<Event>)
    requires Legal(c, EMPTY, es) && AllCareful(c, EMPTY, es)
    ensures var s := Exec(c, EMPTY, es);
      && Ok(s) && Orphans(s) == {}
      && s.live.Keys == Tracked(s) - EverHidden(c, EMPTY, es) && EverHidden(c, EMPTY, es) <= s.used
      && forall a, b :: a in s.live && b in s.live && s.live[a] == s.live[b] ==> a == b
  {
    var s := Exec(c, EMPTY, es);
    if es != [] {
      var init, e := es[..|es| - 1], es[|es| - 1];
      LiveIsTracked(c, init);
      StepOk(c, Exec(c, EMPTY, init), e);
      OrphanIff(c, Exec(c, EMPTY, init), e);
      HiddenStep(c, Exec(c, EMPTY, init), e, EverHidden(c, EMPTY, init));
    }
    forall oid | oid in s.live ensures s.live[oid] in s.resting && s.resting[s.live[oid]].oid == oid {
      assert oid in Tracked(s);
      var slot :| slot in s.resting && s.resting[slot].oid == oid;
      assert SlotOk(s, slot);
    }
  }

  lemma RunAppend(c: Config, es: seq<Event>, e: Event)
    ensures Exec(c, EMPTY, es + [e]) == Step(c, Exec(c, EMPTY, es), e)
    ensures Legal(c, EMPTY, es + [e]) <==> Legal(c, EMPTY, es) && Possible(Exec(c, EMPTY, es), e)
  {
    assert (es + [e])[..|es|] == es;
  }

  const EXAMPLE := Config(15.0, 0)
  const BID := Slot(0, Books.Bid)

  /** An evaluation that wants to bid 40 cents for five. */
  function Bidding(place: PlaceReply): Input {
    Input(Some(0.4), true, None, true, 5, 0.4, 0.0, CancelDone, place)
  }

  lemma FirstBid(place: PlaceReply)
    ensures Evaluate(EXAMPLE, EMPTY, BID, Bidding(place), 100.0) == PlaceResult(EMPTY, BID, Bidding(place), 100.0, None)
  {}

  /** The kill switch forgets an order whose cancel fails, and no gateway sweeps it. */
  lemma {:induction false} KillSwitchOrphan() returns (es: seq<Event>)
    ensures Legal(EXAMPLE, EMPTY, es)
    ensures var s := Exec(EXAMPLE, EMPTY, es); s.resting == map[] && s.live == map[7 := BID] && Orphans(s) == {7}
  {
    var (place, kill) := (Evaluated(BID, Bidding(Accepted(7)), 100.0), KillSwitch(Sweep({}, {})));
    FirstBid(Accepted(7));
    RunAppend(EXAMPLE, [], place);
    RunAppend(EXAMPLE, [] + [place], kill);
    es := [] + [place] + [kill];
    var s := PlaceResult(EMPTY, BID, Bidding(Accepted(7)), 100.0, None);
    assert s.live == map[7 := BID] && Ids(s, {}) == {};
    assert CancelAllState(s, Sweep({}, {})).live == map[7 := BID];
  }

  /** A placement that raises after the venue took the order leaves it resting, tracked by nobody. */
  lemma {:induction false} RaisingPlacementOrphan() returns (es: seq<Event>)
    ensures Legal(EXAMPLE, EMPTY, es)
    ensures var s := Exec(EXAMPLE, EMPTY, es); s.resting == map[] && s.live == map[7 := BID] && Orphans(s) == {7}
  {
    var place := Evaluated(BID, Bidding(Raising(Some(7))), 100.0);
    FirstBid(Raising(Some(7)));
    RunAppend(EXAMPLE, [], place);
    es := [] + [place];
  }

  // ---------- the activity feed ----------

  function FeedStep(ids: set<int>, i: Intent): set<int> {
    match i
    case Placed(_, oid, replaced) => (if replaced.Some? then ids - {replaced.value} else ids) + {oid}
    case Cancelled(_, oid) => ids - {oid}
    case _ => ids
  }

  /** What a reader of the intents believes to be resting. */
  function Feed(intents: seq<Intent>): set<int> {
    if intents == [] then {} else FeedStep(Feed(intents[..|intents| - 1]), intents[|intents| - 1])
  }

  lemma FeedAppend(intents: seq<Intent>, i: Intent)
    ensures Feed(intents + [i]) == FeedStep(Feed(intents), i)
  {
    assert (intents + [i])[..|intents|] == intents;
  }

  ghost predicate FeedOk(s: State) {
    Tracked(s) == Feed(s.intents) - s.closed && Feed(s.intents) <= s.used
  }

  lemma FeedOfPlace(log: seq<Intent>, slot: Slot, x: Input, replaced: Option<int>)
    ensures Feed(log + PlaceIntents(slot, x, replaced)) ==
      Feed(log) - (if replaced.Some? then {replaced.value} else {}) + if x.place.Accepted? then {x.place.oid} else {}
  {
    if x.place.Accepted? {
      FeedAppend(log, Placed(slot, x.place.oid, replaced));
    } else if replaced.Some? {
      FeedAppend(log, Cancelled(slot, replaced.value));
      FeedAppend(log + [Cancelled(slot, replaced.value)], PlaceFailed(slot));
      assert log + PlaceIntents(slot, x, replaced) == log + [Cancelled(slot, replaced.value)] + [PlaceFailed(slot)];
    } else {
      FeedAppend(log, PlaceFailed(slot));
    }
  }

  lemma SendFeed(c: Config, s: State, slot: Slot, x: Input, now: real)
    requires Ok(s) && FeedOk(s) && Possible(s, Evaluated(slot, x, now)) && Sends(c, s, slot, x, now)
    ensures FeedOk(Evaluate(c, s, slot, x, now))
  {
    SendsTracks(c, s, slot, x, now);
    OwnIsTracked(s, slot);
    FeedOfPlace(s.intents, slot, x, Replaced(s, slot));
    FeedSets(Tracked(s), Feed(s.intents), s.closed, s.used, Own(s, slot),
             if x.place.Accepted? then {x.place.oid} else {});
  }

  lemma FeedSets(tracked: set<int>, feed: set<int>, closed: set<int>, used: set<int>, own: set<int>, placed: set<int>)
    requires tracked == feed - closed && feed <= used && closed <= used && own <= feed && placed !! used
    ensures tracked - own + placed == feed - own + placed - closed && feed - own + placed <= used + placed
  {}

  lemma FeedNotes(log: seq<Intent>, noted: bool)
    ensures Feed(log + Notes(noted)) == Feed(log)
  {
    if noted { FeedAppend(log, Skipped); } else { assert log + [] == log; }
  }

  lemma {:induction false} OtherFeed(c: Config, s: State, slot: Slot, x: Input, now: real)
    requires Ok(s) && FeedOk(s) && !Sends(c, s, slot, x, now)
    ensures FeedOk(Evaluate(c, s, slot, x, now))
  {
    var e := EffectOf(c, s, slot, x, now);
    OtherTracks(c, s, slot, x, now);
    OtherIntents(c, s, slot, x, now);
    var log := s.intents + Notes(e.noted);
    FeedNotes(s.intents, e.noted);
    if e.Withdrawn? && slot in s.resting {
      FeedAppend(log, Cancelled(slot, s.resting[slot].oid));
    } else {
      assert log + [] == log;
    }
  }

  /** The intents tell the whole story of the quoter's own actions: replaying them gives the tracked orders,
      apart from those ended by a fill or by the kill switch, which write no intent. */
  lemma {:induction false} FeedReplaysTracking(c: Config, es: seq<Event>)
    requires Legal(c, EMPTY, es)
    ensures Ok(Exec(c, EMPTY, es)) && FeedOk(Exec(c, EMPTY, es))
  {
    if es != [] {
      var s, e := Exec(c, EMPTY, es[..|es| - 1]), es[|es| - 1];
      FeedReplaysTracking(c, es[..|es| - 1]);
      StepOk(c, s, e);
      match e {
        case Evaluated(slot, x, now) =>
          if Sends(c, s, slot, x, now) { SendFeed(c, s, slot, x, now); } else { OtherFeed(c, s, slot, x, now); }
        case PartlyFilled(_) =>
      case FilledAtVenue(oid) => assert Tracked(Step(c, s, e)) == Tracked(s);
        case Completed(slot) => if slot in s.resting { UntrackOne(s, slot); }
        case KillSwitch(w) => assert Tracked(Step(c, s, e)) == {};
      }
    }
  }

  // ---------- the guards ----------

  /** There is a target, the hedge leg has depth for it, and the side is not toxic. */
  predicate Guarded(x: Input) {
    x.target.Some? && x.hasDepth && (x.tox.Some? ==> x.tox.value <= 0.03)
  }

  /** The slot's quote is where it should be: at the target, or, with a deadband, on its passive side by no more
      than the slot's deadband. */
  predicate InPlace(c: Config, s: State, slot: Slot, target: real) {
    slot in s.resting &&
      var (price, db) := (s.resting[slot].price, if slot in s.deadband then s.deadband[slot] else 0.0);
      if c.deadbandTicks <= 0 then price == target
      else if slot.side.Bid? then 0.0 <= target - price <= db else 0.0 <= price - target <= db
  }

  /** An order is sent exactly when the guards pass, the quote is not in place, the throttle has run out, the risk
      gate allows it, and the quote it replaces, if any, was cancelled; and never otherwise. */
  lemma SendsIff(c: Config, s: State, slot: Slot, x: Input, now: real)
    ensures Sends(c, s, slot, x, now) <==>
      && Guarded(x) && !InPlace(c, s, slot, x.target.value)
      && now - (if slot in s.last then s.last[slot] else 0.0) >= c.minRequote
      && x.allowed && (slot in s.resting ==> x.cancel.CancelDone?)
  {}

  /** What it places and tracks. */
  lemma SentIsTracked(c: Config, s: State, slot: Slot, x: Input, now: real)
    requires Ok(s) && Sends(c, s, slot, x, now)
    ensures var t := Evaluate(c, s, slot, x, now);
      if x.place.Accepted?
      then t.resting == s.resting[slot := Resting(x.place.oid, x.price, x.size, Leg1Working)]
      else t.resting == s.resting - {slot}
  {
    EvaluateShape(c, s, slot, x, now);
    PlaceTracks(c, Base(s, slot), slot, x, now, Replaced(s, slot));
  }

  /** A side that fails a guard is empty after the pass, unless the cancel it needed failed. */
  lemma UnguardedIsEmpty(c: Config, s: State, slot: Slot, x: Input, now: real)
    requires Ok(s) && !Guarded(x) && x.cancel.CancelDone?
    ensures slot !in Evaluate(c, s, slot, x, now).resting
  {
    EvaluateShape(c, s, slot, x, now);
  }

  /** The last evaluation of a slot that sent an order, and when. */
  function LastSent(c: Config, es: seq<Event>, slot: Slot): Option<(Input, real)> {
    if es == [] then None
    else
      var (s, e) := (Exec(c, EMPTY, es[..|es| - 1]), es[|es| - 1]);
      if e.Evaluated? && e.slot == slot && Sends(c, s, slot, e.x, e.now) then Some((e.x, e.now))
      else LastSent(c, es[..|es| - 1], slot)
  }

  /** The slot is as its last order left it: what rests is what was accepted then, with the deadband drawn for it and
      the time, and the slot is marked as failed exactly when that order was not accepted. */
  ghost predicate AsSent(c: Config, s: State, slot: Slot, sent: Option<(Input, real)>) {
    && (slot in s.resting ==>
         && sent.Some? && var (x, at) := sent.value;
         && x.place.Accepted? && s.resting[slot] == Resting(x.place.oid, x.price, x.size, Leg1Working)
         && slot in s.last && s.last[slot] == at
         && (c.deadbandTicks > 0 ==> slot in s.deadband && s.deadband[slot] == x.deadband))
    && (slot in s.failed <==> sent.Some? && !sent.value.0.place.Accepted?)
  }

  /** An evaluation that sends leaves its slot as sent; any other leaves every slot as it was, or empty. */
  lemma EvaluateAsSent(c: Config, s: State, slot: Slot, x: Input, now: real, y: Slot, sent: Option<(Input, real)>)
    requires Ok(s) && AsSent(c, s, y, sent)
    ensures AsSent(c, Evaluate(c, s, slot, x, now), y,
      if y == slot && Sends(c, s, slot, x, now) then Some((x, now)) else sent)
  {
    EvaluateShape(c, s, slot, x, now);
    var e := EffectOf(c, s, slot, x, now);
    if e.Placing? { PlaceAsSent(c, Base(s, slot), slot, x, now, Replaced(s, slot), y, sent); }
  }

  lemma PlaceAsSent(c: Config, s: State, slot: Slot, x: Input, now: real, replaced: Option<int>, y: Slot,
                    sent: Option<(Input, real)>)
    requires slot !in s.resting && AsSent(c, s, y, sent)
    ensures AsSent(c, WithDeadband(c, PlaceResult(s, slot, x, now, replaced), slot, x), y,
      if y == slot then Some((x, now)) else sent)
  {}

  /** Over any run every slot is as its last order left it, or empty. */
  lemma {:induction false} RestsAsSent(c: Config, es: seq<Event>, slot: Slot)
    requires Legal(c, EMPTY, es)
    ensures Ok(Exec(c, EMPTY, es)) && AsSent(c, Exec(c, EMPTY, es), slot, LastSent(c, es, slot))
  {
    if es != [] {
      var (init, e) := (es[..|es| - 1], es[|es| - 1]);
      var s := Exec(c, EMPTY, init);
      RestsAsSent(c, init, slot);
      StepOk(c, s, e);
      if e.Evaluated? {
        EvaluateAsSent(c, s, e.slot, e.x, e.now, slot, LastSent(c, init, slot));
      } else {
        OtherAsSent(c, s, e, slot, LastSent(c, init, slot));
      }
    }
  }

  lemma OtherAsSent(c: Config, s: State, e: Event, slot: Slot, sent: Option<(Input, real)>)
    requires !e.Evaluated? && AsSent(c, s, slot, sent)
    ensures AsSent(c, Step(c, s, e), slot, sent)
  {}

  /** A complete fill frees the throttle: the side is quoted again by the next evaluation that passes the guards
      and the risk gate, however soon after the fill. */
  lemma FillFreesThrottle(c: Config, s: State, slot: Slot, x: Input, now: real)
    requires slot in s.resting && now >= c.minRequote
    ensures var t := Step(c, s, Completed(slot));
      slot !in t.resting && (Sends(c, t, slot, x, now) <==> Guarded(x) && x.allowed)
  {}

  /** The last evaluation of a slot. */
  function LastLook(es: seq<Event>, slot: Slot): Option<Input> {
    if es == [] then None
    else
      var e := es[|es| - 1];
      if e.Evaluated? && e.slot == slot then Some(e.x) else LastLook(es[..|es| - 1], slot)
  }

  /** Over any run, an order rests only where its last evaluation passed the guards or was cut off by a failed
      cancel. */
  lemma {:induction false} RestsOnlyGuarded(c: Config, es: seq<Event>, slot: Slot)
    requires Legal(c, EMPTY, es)
    ensures Ok(Exec(c, EMPTY, es))
    ensures slot in Exec(c, EMPTY, es).resting ==>
      var x := LastLook(es, slot); x.Some? && (Guarded(x.value) || x.value.cancel.CancelFailed?)
  {
    if es != [] {
      var init, e := es[..|es| - 1], es[|es| - 1];
      var s := Exec(c, EMPTY, init);
      RestsOnlyGuarded(c, init, slot);
      StepOk(c, s, e);
      if e.Evaluated? {
        if e.slot != slot {
          EvaluateShape(c, s, e.slot, e.x, e.now);
          EffectKeeps(c, s, e.slot, e.x, e.now, EffectOf(c, s, e.slot, e.x, e.now), slot);
        } else if !Guarded(e.x) && e.x.cancel.CancelDone? {
          UnguardedIsEmpty(c, s, slot, e.x, e.now);
        }
      }
    }
  }

  // ---------- the throttle ----------

  /** The end of a tracked order, by a complete fill or the kill switch, clears its slot's timestamp. */
  predicate Clears(s: State, e: Event, slot: Slot) {
    slot in s.resting && (e.KillSwitch? || e == Completed(slot))
  }

  predicate NeverClears(c: Config, s: State, es: seq<Event>, slot: Slot) {
    es == [] || (NeverClears(c, s, es[..|es| - 1], slot) && !Clears(Exec(c, s, es[..|es| - 1]), es[|es| - 1], slot))
  }

  /** The event sends an order for the slot. */
  predicate SendsFor(c: Config, s: State, e: Event, slot: Slot) {
    e.Evaluated? && e.slot == slot && Sends(c, s, slot, e.x, e.now)
  }

  /** How many orders the run sends for a slot. */
  function Sent(c: Config, s: State, es: seq<Event>, slot: Slot): nat {
    if es == [] then 0
    else Sent(c, s, es[..|es| - 1], slot) + if SendsFor(c, Exec(c, s, es[..|es| - 1]), es[|es| - 1], slot) then 1 else 0
  }

  lemma PlaceStamps(c: Config, s: State, slot: Slot, x: Input, now: real, replaced: Option<int>)
    ensures WithDeadband(c, PlaceResult(s, slot, x, now, replaced), slot, x).last == s.last[slot := now]
  {}

  lemma WithdrawStamps(s: State, slot: Slot, x: Input)
    ensures Withdraw(s, slot, x).last == s.last
  {}

  lemma EvaluateStamps(c: Config, s: State, slot: Slot, x: Input, now: real)
    ensures Evaluate(c, s, slot, x, now).last == if Sends(c, s, slot, x, now) then s.last[slot := now] else s.last
  {
    if Viable(x).None? {
      WithdrawStamps(s, slot, x);
      WithdrawStamps(s.(intents := s.intents + [Skipped]), slot, x);
    } else if Sends(c, s, slot, x, now) {
      if slot in s.resting {
        PlaceStamps(c, Pulled(s, slot), slot, x, now, Some(s.resting[slot].oid));
      } else {
        PlaceStamps(c, s, slot, x, now, None);
      }
    }
  }

  lemma LastStep(c: Config, s: State, e: Event, slot: Slot)
    requires !Clears(s, e, slot) && c.minRequote >= 0.0
    ensures LastQuote(Step(c, s, e), slot) >= LastQuote(s, slot) + if SendsFor(c, s, e, slot) then c.minRequote else 0.0
  {
    if e.Evaluated? { EvaluateStamps(c, s, e.slot, e.x, e.now); }
  }

  /** n times the gap. */
  function Gaps(n: nat, gap: real): real {
    if n == 0 then 0.0 else Gaps(n - 1, gap) + gap
  }

  lemma {:induction false} GapsAreProduct(n: nat, gap: real)
    ensures Gaps(n, gap) == Times(n as real, gap)
  {
    if n == 0 {
      TimesZero(gap);
    } else {
      GapsAreProduct(n - 1, gap);
      TimesAdds((n - 1) as real, 1.0, gap);
      TimesZero(gap);
    }
  }

  lemma SpacedOnce(before: real, mid: real, after: real, n: nat, one: bool, gap: real)
    requires mid >= before + Gaps(n, gap) && after >= mid + if one then gap else 0.0
    ensures after >= before + Gaps(n + if one then 1 else 0, gap)
  {}

  lemma {:induction false} SpacedSteps(c: Config, s: State, es: seq<Event>, slot: Slot)
    requires c.minRequote >= 0.0 && NeverClears(c, s, es, slot)
    ensures LastQuote(Exec(c, s, es), slot) >= LastQuote(s, slot) + Gaps(Sent(c, s, es, slot), c.minRequote)
  {
    if es != [] {
      var init, e := es[..|es| - 1], es[|es| - 1];
      var mid := Exec(c, s, init);
      assert NeverClears(c, s, init, slot) && !Clears(mid, e, slot);
      SpacedSteps(c, s, init, slot);
      LastStep(c, mid, e, slot);
      SpacedOnce(LastQuote(s, slot), LastQuote(mid, slot), LastQuote(Step(c, mid, e), slot), Sent(c, s, init, slot),
                 SendsFor(c, mid, e, slot), c.minRequote);
    }
  }

  /** The requote throttle holds over whole runs, through cancels, rejections and re-entries: while nothing
      clears its timestamp, n orders on a side take at least n times the minimum interval, counted from the
      one before them. */
  lemma {:induction false} OrdersAreSpaced(c: Config, s: State, es: seq<Event>, slot: Slot)
    requires c.minRequote >= 0.0 && NeverClears(c, s, es, slot)
    ensures LastQuote(Exec(c, s, es), slot) >= LastQuote(s, slot) + Times(Sent(c, s, es, slot) as real, c.minRequote)
  {
    SpacedSteps(c, s, es, slot);
    GapsAreProduct(Sent(c, s, es, slot), c.minRequote);
  }
}
