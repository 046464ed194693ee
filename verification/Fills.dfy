/** Fill handling of the live runner (src/arbbot/exec/main.py: _process_fill and its callers, with
    src/arbbot/exec/quoter.py: hedge_fill). The order stream, the poll and the disconnected-path poll all report
    cumulative counts of resting quotes. */
module Fills {
  import opened Core
  import Hedge

  /** (leg, side) of a quote. */
  type Slot = (int, bool)

  datatype Quote = Quote(oid: string, count: int)

  /** How hedge_fill ends: the order is placed; there is no hedge gateway or no two-sided hedge book, and it
      returns without placing anything; or it raises, with the order at the venue or not. */
  datatype Reply = Hedged | NotHedged | Raised(reached: bool)

  /** resting and hedgedByOid are the program's. filled is the venue's truth, handed the quantities whose
      hedge_fill returned, and placed what hedge orders really reached the venue for, per maker order. */
  datatype State = State(resting: map<Slot, Quote>, hedgedByOid: map<string, int>,
                         filled: map<string, int>, handed: map<string, seq<int>>, placed: map<string, int>)

  const INITIAL := State(map[], map[], map[], map[], map[])

  function Count(m: map<string, int>, oid: string): int {
    if oid in m then m[oid] else 0
  }

  function Memory(s: State, oid: string): int {
    Count(s.hedgedByOid, oid)
  }

  function Handed(s: State, oid: string): seq<int> {
    if oid in s.handed then s.handed[oid] else []
  }

  datatype Event =
    | Rest(slot: Slot, oid: string, count: int)
    | Fill(oid: string, n: int)
    | Pull(slot: Slot)
    | Report(slot: Slot, cum: int, reply: Reply)

  /** The hedge order reaches the venue. */
  predicate Reaches(r: Reply) {
    r.Hedged? || (r.Raised? && r.reached)
  }

  function Placing(s: State, oid: string, n: int, reply: Reply): State {
    if Reaches(reply) then s.(placed := s.placed[oid := Count(s.placed, oid) + n]) else s
  }

  /** The hedging half of a report: the increment is placed or not, and remembered unless hedging raised. */
  function Taken(s: State, oid: string, cum: int, reply: Reply): State {
    var delta := cum - Memory(s, oid);
    var t := Placing(s, oid, delta, reply);
    if delta < 1 then s
    else if reply.Raised? then t
    else t.(hedgedByOid := s.hedgedByOid[oid := cum], handed := s.handed[oid := Handed(s, oid) + [delta]])
  }

  /** One report for a quote that is resting. A hedge that raises aborts it; one that returns without
      placing anything does not. */
  function Process(s: State, slot: Slot, rq: Quote, cum: int, reply: Reply): State {
    var t := Taken(s, rq.oid, cum, reply);
    if cum - Memory(s, rq.oid) >= 1 && reply.Raised? then t
    else if cum >= rq.count then t.(resting := t.resting - {slot}, hedgedByOid := t.hedgedByOid - {rq.oid})
    else t
  }

  function Step(s: State, e: Event): State {
    match e
    case Rest(slot, oid, count) =>
      s.(resting := s.resting[slot := Quote(oid, count)], filled := s.filled[oid := 0])
    case Fill(oid, n) => if oid in s.filled then s.(filled := s.filled[oid := s.filled[oid] + n]) else s
    case Pull(slot) => s.(resting := s.resting - {slot})
    case Report(slot, cum, reply) => if slot in s.resting then Process(s, slot, s.resting[slot], cum, reply) else s
  }

  /** Order ids are new, slots are free before they are taken, and reports, however stale, never exceed the
      venue's count. */
  ghost predicate Possible(s: State, e: Event) {
    match e
    case Rest(slot, oid, count) => slot !in s.resting && oid !in s.filled && count > 0
    case Fill(oid, n) => oid in s.filled && n > 0
    case Pull(slot) => true
    case Report(slot, cum, _) => slot in s.resting ==>
      s.resting[slot].oid in s.filled && cum <= s.filled[s.resting[slot].oid]
  }

  /** Without gateway or two-sided book nothing is placed. */
  function ReplyOf(gateway: bool, book: bool, raises: Option<bool>): Reply {
    if !gateway || !book then NotHedged else if raises.Some? then Raised(raises.value) else Hedged
  }

  class FillProcessor {
    var resting: map<Slot, Quote>
    var hedgedByOid: map<string, int>
    ghost var filled: map<string, int>
    ghost var handed: map<string, seq<int>>
    ghost var placed: map<string, int>

    ghost function Now(): State
      reads this
    {
      State(resting, hedgedByOid, filled, handed, placed)
    }

    constructor ()
      ensures Now() == INITIAL
    {
      resting, hedgedByOid := map[], map[];
      filled, handed, placed := map[], map[], map[];
    }

    /** hedge_fill, of which only the reply matters to the caller: gateway and book are what it finds, raises
        whether its placement raises, and then whether the venue had the order. */
    method HedgeFill(oid: string, n: int, gateway: bool, book: bool, raises: Option<bool>) returns (reply: Reply)
      modifies this`placed
      ensures reply == ReplyOf(gateway, book, raises)
      ensures reply.NotHedged? <==> !gateway || !book
      ensures gateway && book ==> (reply.Raised? <==> raises.Some?) && (raises.Some? ==> reply.reached == raises.value)
      ensures Now() == Placing(old(Now()), oid, n, reply)
    {
      if !gateway || !book { return NotHedged; }
      reply := if raises.Some? then Raised(raises.value) else Hedged;
      if Reaches(reply) { placed := placed[oid := Count(placed, oid) + n]; }
    }

    /** The increment, if there is one: handed over, and remembered unless hedging raises. */
    method HedgeIncrement(oid: string, cum: int, gateway: bool, book: bool, raises: Option<bool>) returns (raised: bool)
      modifies this
      ensures Now() == Taken(old(Now()), oid, cum, ReplyOf(gateway, book, raises))
      ensures raised <==> cum - Memory(old(Now()), oid) >= 1 && ReplyOf(gateway, book, raises).Raised?
    {
      var delta := cum - Count(hedgedByOid, oid);
      if delta < 1 { return false; }
      var reply := HedgeFill(oid, delta, gateway, book, raises);
      if reply.Raised? { return true; }
      handed := handed[oid := (if oid in handed then handed[oid] else []) + [delta]];
      hedgedByOid := hedgedByOid[oid := cum];
      return false;
    }

    method ProcessFill(slot: Slot, rq: Quote, cum: int, gateway: bool, book: bool, raises: Option<bool>)
      returns (raised: bool)
      requires slot in resting && resting[slot] == rq
      modifies this
      ensures Now() == Step(old(Now()), Report(slot, cum, ReplyOf(gateway, book, raises)))
      ensures raised <==> cum - Memory(old(Now()), rq.oid) >= 1 && ReplyOf(gateway, book, raises).Raised?
    {
      raised := HedgeIncrement(rq.oid, cum, gateway, book, raises);
      if !raised && cum >= rq.count {
        resting := resting - {slot};
        hedgedByOid := hedgedByOid - {rq.oid};
      }
    }
  }

  function Exec(s: State, es: seq<Event>): State {
    if es == [] then s else Step(Exec(s, es[..|es| - 1]), es[|es| - 1])
  }

  ghost predicate Legal(s: State, es: seq<Event>) {
    es == [] || (Legal(s, es[..|es| - 1]) && Possible(Exec(s, es[..|es| - 1]), es[|es| - 1]))
  }

  ghost predicate Tracked(s: State, oid: string) {
    exists slot :: slot in s.resting && s.resting[slot].oid == oid
  }

  /** The memory of a tracked order is exactly what was handed over for it. */
  ghost predicate SlotOk(s: State, slot: Slot) {
    slot in s.resting ==>
      s.resting[slot].oid in s.filled && Hedge.Sum(Handed(s, s.resting[slot].oid)) == Memory(s, s.resting[slot].oid)
  }

  /** Nothing is handed over beyond the venue's fill. */
  ghost predicate OrderOk(s: State, oid: string) {
    if oid in s.filled then 0 <= Hedge.Sum(Handed(s, oid)) <= s.filled[oid]
    else oid !in s.hedgedByOid && oid !in s.handed && oid !in s.placed
  }

  ghost predicate OneSlotPerOrder(s: State) {
    forall a, b :: a in s.resting && b in s.resting && s.resting[a].oid == s.resting[b].oid ==> a == b
  }

  ghost predicate Ok(s: State) {
    && OneSlotPerOrder(s)
    && (forall slot :: SlotOk(s, slot))
    && (forall oid :: OrderOk(s, oid))
  }

  predicate SameAt<T(==)>(a: map<string, T>, b: map<string, T>, x: string) {
    (x in a <==> x in b) && (x in a ==> a[x] == b[x])
  }

  /** What hedging an increment changes concerns its own order alone. */
  lemma TakenFrame(s: State, oid: string, cum: int, reply: Reply, x: string)
    requires x != oid
    ensures var t := Taken(s, oid, cum, reply);
      SameAt(t.handed, s.handed, x) && SameAt(t.hedgedByOid, s.hedgedByOid, x) && SameAt(t.placed, s.placed, x)
  {}

  lemma TakenRest(s: State, oid: string, cum: int, reply: Reply)
    ensures var t := Taken(s, oid, cum, reply); t.filled == s.filled && t.resting == s.resting
  {}

  /** How it changes that order: the increment is remembered and handed over unless hedging raised. */
  lemma TakenOwn(s: State, oid: string, cum: int, reply: Reply)
    ensures var (t, delta) := (Taken(s, oid, cum, reply), cum - Memory(s, oid));
      && Handed(t, oid) == (if delta >= 1 && !reply.Raised? then Handed(s, oid) + [delta] else Handed(s, oid))
      && Memory(t, oid) == (if delta >= 1 && !reply.Raised? then cum else Memory(s, oid))
      && Count(t.placed, oid) == Count(s.placed, oid) + (if delta >= 1 && Reaches(reply) then delta else 0)
  {}

  lemma TakenSum(s: State, oid: string, cum: int, reply: Reply)
    ensures var (t, delta) := (Taken(s, oid, cum, reply), cum - Memory(s, oid));
      Hedge.Sum(Handed(t, oid)) == Hedge.Sum(Handed(s, oid)) + (if delta >= 1 && !reply.Raised? then delta else 0)
  {
    TakenOwn(s, oid, cum, reply);
    Hedge.SumAppend(Handed(s, oid), cum - Memory(s, oid));
  }

  /** Dropping a completed quote touches neither what was handed over nor what was placed. */
  lemma ProcessKeepsHanded(s: State, slot: Slot, cum: int, reply: Reply)
    requires slot in s.resting
    ensures var (t, u) := (Step(s, Report(slot, cum, reply)), Taken(s, s.resting[slot].oid, cum, reply));
      t.handed == u.handed && t.placed == u.placed && t.filled == u.filled
  {}

  /** A quote that is still tracked has the memory its report left. */
  lemma ProcessKeepsMemory(s: State, slot: Slot, cum: int, reply: Reply)
    requires slot in s.resting && slot in Step(s, Report(slot, cum, reply)).resting
    ensures var (t, u) := (Step(s, Report(slot, cum, reply)), Taken(s, s.resting[slot].oid, cum, reply));
      t.hedgedByOid == u.hedgedByOid && t.resting == s.resting
  {
    TakenRest(s, s.resting[slot].oid, cum, reply);
  }

  /** A report leaves its own order in order. */
  lemma ProcessOrder(s: State, slot: Slot, cum: int, reply: Reply)
    requires slot in s.resting && SlotOk(s, slot) && OrderOk(s, s.resting[slot].oid)
    requires Possible(s, Report(slot, cum, reply))
    ensures var (t, oid) := (Step(s, Report(slot, cum, reply)), s.resting[slot].oid);
      OrderOk(t, oid) && SlotOk(t, slot)
  {
    var oid := s.resting[slot].oid;
    TakenRest(s, oid, cum, reply);
    TakenOwn(s, oid, cum, reply);
    TakenSum(s, oid, cum, reply);
    ProcessKeepsHanded(s, slot, cum, reply);
    if slot in Step(s, Report(slot, cum, reply)).resting { ProcessKeepsMemory(s, slot, cum, reply); }
  }

  lemma ProcessFrame(s: State, slot: Slot, cum: int, reply: Reply, x: string)
    requires slot in s.resting && x != s.resting[slot].oid
    ensures var t := Step(s, Report(slot, cum, reply));
      SameAt(t.handed, s.handed, x) && SameAt(t.hedgedByOid, s.hedgedByOid, x) && SameAt(t.placed, s.placed, x)
  {
    TakenFrame(s, s.resting[slot].oid, cum, reply, x);
  }

  lemma ProcessResting(s: State, slot: Slot, cum: int, reply: Reply)
    requires slot in s.resting
    ensures var t := Step(s, Report(slot, cum, reply));
      t.filled == s.filled && (t.resting == s.resting || t.resting == s.resting - {slot})
  {
    TakenRest(s, s.resting[slot].oid, cum, reply);
  }

  lemma ReportOk(s: State, slot: Slot, cum: int, reply: Reply)
    requires Ok(s) && Possible(s, Report(slot, cum, reply)) && slot in s.resting
    ensures Ok(Step(s, Report(slot, cum, reply)))
  {
    var s' := Step(s, Report(slot, cum, reply));
    assert SlotOk(s, slot) && OrderOk(s, s.resting[slot].oid);
    ProcessOrder(s, slot, cum, reply);
    ProcessResting(s, slot, cum, reply);
    forall x ensures SlotOk(s', x) {
      assert SlotOk(s, x);
      if x in s.resting && s.resting[x].oid != s.resting[slot].oid {
        ProcessFrame(s, slot, cum, reply, s.resting[x].oid);
      }
    }
    forall oid ensures OrderOk(s', oid) {
      assert OrderOk(s, oid);
      if oid != s.resting[slot].oid { ProcessFrame(s, slot, cum, reply, oid); }
    }
  }

  lemma StepOk(s: State, e: Event)
    requires Ok(s) && Possible(s, e)
    ensures Ok(Step(s, e))
  {
    var s' := Step(s, e);
    match e {
      case Report(slot, cum, reply) => if slot in s.resting { ReportOk(s, slot, cum, reply); }
      case Rest(slot, oid, count) =>
        assert OrderOk(s, oid);
        forall x ensures SlotOk(s', x) { assert SlotOk(s, x); }
        forall o ensures OrderOk(s', o) { assert OrderOk(s, o); }
        forall x | x in s.resting ensures s.resting[x].oid != oid { assert SlotOk(s, x); }
      case Fill(oid, n) =>
        forall x ensures SlotOk(s', x) { assert SlotOk(s, x); }
        forall o ensures OrderOk(s', o) { assert OrderOk(s, o); }
      case Pull(slot) =>
        forall x ensures SlotOk(s', x) { assert SlotOk(s, x); }
        forall o ensures OrderOk(s', o) { assert OrderOk(s, o); }
    }
  }

  /** The increments handed to hedge_fill for an order sum to the runner's memory of it while it is
      tracked, and never exceed the venue's fill over the order's whole life. */
  lemma {:induction false} HandedOnce(es: seq<Event>)
    requires Legal(INITIAL, es)
    ensures Ok(Exec(INITIAL, es))
  {
    if es != [] {
      HandedOnce(es[..|es| - 1]);
      StepOk(Exec(INITIAL, es[..|es| - 1]), es[|es| - 1]);
    }
  }

  // ---------- how long a quote is tracked, and what of it is handed over ----------

  /** The event ends the tracking of a quote of that many contracts: it is pulled, or reported in full by a report
      whose hedging does not raise. */
  predicate Ends(e: Event, slot: Slot, count: int) {
    e == Pull(slot) || (e.Report? && e.slot == slot && e.cum >= count && !e.reply.Raised?)
  }

  /** The largest count of a slot's quote that was reported without raising. */
  function LargestReport(was: int, es: seq<Event>, slot: Slot): int {
    if es == [] then was
    else
      var (before, e) := (LargestReport(was, es[..|es| - 1], slot), es[|es| - 1]);
      if e.Report? && e.slot == slot && !e.reply.Raised? then Hedge.MaxInt(before, e.cum) else before
  }

  /** The slot's quote is q, and m of it are remembered as hedged, not all. */
  ghost predicate Holds(s: State, slot: Slot, q: Quote, m: int) {
    slot in s.resting && s.resting[slot] == q && Memory(s, q.oid) == m < q.count
  }

  /** A quote that ends is no longer remembered either, unless it was pulled. */
  lemma EndedIsGone(s: State, e: Event, slot: Slot, q: Quote, m: int)
    requires Ok(s) && Possible(s, e) && Holds(s, slot, q, m) && Ends(e, slot, q.count)
    ensures !Tracked(Step(s, e), q.oid) && q.oid in Step(s, e).filled
    ensures q.oid in Step(s, e).hedgedByOid ==> e.Pull?
  {
    assert SlotOk(s, slot);
    if e.Report? {
      ProcessResting(s, slot, e.cum, e.reply);
      TakenRest(s, q.oid, e.cum, e.reply);
    }
    forall x | x in Step(s, e).resting ensures Step(s, e).resting[x].oid != q.oid {
      assert x in s.resting && x != slot;
    }
  }

  lemma HeldOn(s: State, e: Event, slot: Slot, q: Quote, m: int)
    requires Ok(s) && Possible(s, e) && Holds(s, slot, q, m) && !Ends(e, slot, q.count)
    ensures Holds(Step(s, e), slot, q, LargestReport(m, [e], slot))
  {
    assert [e][..0] == [];
    if e.Report? && e.slot in s.resting {
      ProcessResting(s, e.slot, e.cum, e.reply);
      if e.slot == slot {
        TakenOwn(s, q.oid, e.cum, e.reply);
        TakenRest(s, q.oid, e.cum, e.reply);
      } else {
        ProcessFrame(s, e.slot, e.cum, e.reply, q.oid);
      }
    }
  }

  /** A quote is tracked until the first event that ends it, and as long as it is, what was handed over of it is the
      largest count reported without raising: nothing reported is left out, and nothing handed over twice. */
  lemma {:induction false} TrackedUntilEnded(s: State, es: seq<Event>, slot: Slot, q: Quote, m: int)
    requires Ok(s) && Legal(s, es) && Holds(s, slot, q, m)
    ensures var t := Exec(s, es);
      && (Tracked(t, q.oid) <==> forall e :: e in es ==> !Ends(e, slot, q.count))
      && (Tracked(t, q.oid) ==>
           && slot in t.resting && t.resting[slot] == q
           && Memory(t, q.oid) == Hedge.Sum(Handed(t, q.oid)) == LargestReport(m, es, slot) < q.count)
  {
    assert SlotOk(s, slot);
    if es != [] {
      var (init, e) := (es[..|es| - 1], es[|es| - 1]);
      var mid := Exec(s, init);
      assert es == init + [e];
      TrackedUntilEnded(s, init, slot, q, m);
      RunOk(s, init);
      StepOk(mid, e);
      if !Tracked(mid, q.oid) {
        FilledStays(s, init, q.oid);
        UntrackedStep(mid, e, q.oid);
      } else if Ends(e, slot, q.count) {
        EndedIsGone(mid, e, slot, q, LargestReport(m, init, slot));
      } else {
        HeldOn(mid, e, slot, q, LargestReport(m, init, slot));
        LargestSplits(m, init, e, slot);
        assert Tracked(Step(mid, e), q.oid) && SlotOk(Step(mid, e), slot);
      }
    } else {
      assert Tracked(s, q.oid);
    }
  }

  lemma LargestSplits(m: int, es: seq<Event>, e: Event, slot: Slot)
    ensures LargestReport(m, es + [e], slot) == LargestReport(LargestReport(m, es, slot), [e], slot)
  {
    assert (es + [e])[..|es|] == es && [e][..0] == [];
  }

  lemma {:induction false} RunOk(s: State, es: seq<Event>)
    requires Ok(s) && Legal(s, es)
    ensures Ok(Exec(s, es))
  {
    if es != [] {
      RunOk(s, es[..|es| - 1]);
      StepOk(Exec(s, es[..|es| - 1]), es[|es| - 1]);
    }
  }

  lemma {:induction false} FilledStays(s: State, es: seq<Event>, oid: string)
    requires Legal(s, es) && oid in s.filled
    ensures oid in Exec(s, es).filled
  {
    if es != [] {
      FilledStays(s, es[..|es| - 1], oid);
      var (mid, e) := (Exec(s, es[..|es| - 1]), es[|es| - 1]);
      if e.Report? && e.slot in mid.resting { ProcessResting(mid, e.slot, e.cum, e.reply); }
    }
  }

  /** So it is of every quote from the moment it rests. */
  lemma {:induction false} RestedIsTracked(es: seq<Event>, slot: Slot, oid: string, count: int, later: seq<Event>)
    requires Legal(INITIAL, es + [Rest(slot, oid, count)])
    requires Legal(Exec(INITIAL, es + [Rest(slot, oid, count)]), later)
    ensures var t := Exec(Exec(INITIAL, es + [Rest(slot, oid, count)]), later);
      && (Tracked(t, oid) <==> forall e :: e in later ==> !Ends(e, slot, count))
      && (Tracked(t, oid) ==> Hedge.Sum(Handed(t, oid)) == LargestReport(0, later, slot) < count)
  {
    ExecAppend(INITIAL, es, Rest(slot, oid, count));
    HandedOnce(es);
    HandedOnce(es + [Rest(slot, oid, count)]);
    assert OrderOk(Exec(INITIAL, es), oid);
    TrackedUntilEnded(Exec(INITIAL, es + [Rest(slot, oid, count)]), later, slot, Quote(oid, count), 0);
  }

  // ---------- what was really placed ----------

  /** The increment a report hands over, if it is about the order. */
  function Increment(s: State, e: Event, oid: string): int {
    if e.Report? && e.slot in s.resting && s.resting[e.slot].oid == oid && e.cum > Memory(s, oid)
    then e.cum - Memory(s, oid) else 0
  }

  /** The increments of an order whose hedge ended in the given way. */
  function Ending(s: State, es: seq<Event>, oid: string, reply: Reply): nat {
    if es == [] then 0
    else
      var init, e := es[..|es| - 1], es[|es| - 1];
      Ending(s, init, oid, reply) + if e.Report? && e.reply == reply then Increment(Exec(s, init), e, oid) else 0
  }

  /** Contracts handed over although the hedge leg was missing: nothing was placed for them. */
  function Unplaced(es: seq<Event>, oid: string): nat {
    Ending(INITIAL, es, oid, NotHedged)
  }

  /** Contracts of hedge orders that raised and were at the venue all the same: they are handed over again. */
  function Repeated(es: seq<Event>, oid: string): nat {
    Ending(INITIAL, es, oid, Raised(true))
  }

  /** What a step adds to what was handed over and to what was placed. */
  lemma StepPlaces(s: State, e: Event, oid: string)
    ensures var (t, n) := (Step(s, e), Increment(s, e, oid));
      && Hedge.Sum(Handed(t, oid)) == Hedge.Sum(Handed(s, oid)) + (if e.Report? && !e.reply.Raised? then n else 0)
      && Count(t.placed, oid) == Count(s.placed, oid) + (if e.Report? && Reaches(e.reply) then n else 0)
  {
    if e.Report? && e.slot in s.resting {
      var own := s.resting[e.slot].oid;
      if own == oid {
        TakenOwn(s, oid, e.cum, e.reply);
        TakenSum(s, oid, e.cum, e.reply);
        ProcessKeepsHanded(s, e.slot, e.cum, e.reply);
      } else {
        ProcessFrame(s, e.slot, e.cum, e.reply, oid);
      }
    }
  }

  /** Over any run, what was placed for an order is what was handed over, plus what was placed twice, less
      what met a missing hedge gateway or book. */
  lemma {:induction false} PlacedIs(es: seq<Event>, oid: string)
    ensures Count(Exec(INITIAL, es).placed, oid) ==
      Hedge.Sum(Handed(Exec(INITIAL, es), oid)) + Repeated(es, oid) - Unplaced(es, oid)
  {
    if es != [] {
      PlacedIs(es[..|es| - 1], oid);
      StepPlaces(Exec(INITIAL, es[..|es| - 1]), es[|es| - 1], oid);
    }
  }

  /** Report k of the run hands over part of the order. */
  predicate HandsOver(es: seq<Event>, k: nat, oid: string)
    requires k < |es|
  {
    Increment(Exec(INITIAL, es[..k]), es[k], oid) > 0
  }

  lemma HandsOverInit(es: seq<Event>, k: nat, oid: string)
    requires k < |es| - 1
    ensures HandsOver(es[..|es| - 1], k, oid) <==> HandsOver(es, k, oid)
  {
    assert es[..|es| - 1][..k] == es[..k] && es[..|es| - 1][k] == es[k];
  }

  /** No report that hands over part of the order ends in the given way. */
  predicate Avoids(es: seq<Event>, oid: string, reply: Reply) {
    forall k :: 0 <= k < |es| && HandsOver(es, k, oid) ==> es[k].reply != reply
  }

  lemma AvoidsInit(es: seq<Event>, oid: string, reply: Reply)
    requires es != []
    ensures var n := |es| - 1;
      Avoids(es, oid, reply) <==> Avoids(es[..n], oid, reply) && (HandsOver(es, n, oid) ==> es[n].reply != reply)
  {
    var init := es[..|es| - 1];
    forall k | 0 <= k < |init| ensures init[k] == es[k] && (HandsOver(init, k, oid) <==> HandsOver(es, k, oid)) {
      HandsOverInit(es, k, oid);
    }
  }

  lemma {:induction false} EndingIff(es: seq<Event>, oid: string, reply: Reply)
    ensures Ending(INITIAL, es, oid, reply) == 0 <==> Avoids(es, oid, reply)
  {
    if es != [] {
      EndingIff(es[..|es| - 1], oid, reply);
      AvoidsInit(es, oid, reply);
    }
  }

  /** While an order is tracked its memory is exactly what was handed over; when no raising hedge had
      reached the venue, no more than that was placed, and exactly that if and only if no report met a
      missing hedge gateway or book. */
  lemma PlacedExactlyIff(es: seq<Event>, slot: Slot)
    requires Legal(INITIAL, es) && slot in Exec(INITIAL, es).resting
    ensures var s := Exec(INITIAL, es);
      var oid := s.resting[slot].oid;
      && Memory(s, oid) == Hedge.Sum(Handed(s, oid))
      && Count(s.placed, oid) == Memory(s, oid) + Repeated(es, oid) - Unplaced(es, oid)
      && (Avoids(es, oid, Raised(true)) ==>
           && Count(s.placed, oid) <= Memory(s, oid)
           && (Count(s.placed, oid) == Memory(s, oid) <==> Avoids(es, oid, NotHedged)))
  {
    var s := Exec(INITIAL, es);
    HandedOnce(es);
    assert SlotOk(s, slot);
    PlacedIs(es, s.resting[slot].oid);
    EndingIff(es, s.resting[slot].oid, NotHedged);
    EndingIff(es, s.resting[slot].oid, Raised(true));
  }

  lemma {:induction false} ExecAppend(s: State, es: seq<Event>, e: Event)
    ensures Exec(s, es + [e]) == Step(Exec(s, es), e)
    ensures Legal(s, es + [e]) <==> Legal(s, es) && Possible(Exec(s, es), e)
  {
    assert (es + [e])[..|es|] == es;
  }

  /** The report that completes a quote, when it does not raise, has handed over the whole fill as it stops
      tracking the quote; all of it is placed if and only if what met a missing hedge leg was made up for by
      what was placed twice. */
  lemma CompletedIsHandedOver(es: seq<Event>, slot: Slot, cum: int, reply: Reply)
    requires Legal(INITIAL, es + [Report(slot, cum, reply)]) && slot in Exec(INITIAL, es).resting && !reply.Raised?
    requires var s := Exec(INITIAL, es); cum >= s.resting[slot].count && cum >= Memory(s, s.resting[slot].oid)
    ensures var (run, oid) := (es + [Report(slot, cum, reply)], Exec(INITIAL, es).resting[slot].oid);
      var t := Exec(INITIAL, run);
      && slot !in t.resting && Hedge.Sum(Handed(t, oid)) == cum
      && (Count(t.placed, oid) == cum <==> Unplaced(run, oid) == Repeated(run, oid))
  {
    ExecAppend(INITIAL, es, Report(slot, cum, reply));
    HandedOnce(es);
    CompletingReport(Exec(INITIAL, es), slot, cum, reply);
    PlacedIs(es + [Report(slot, cum, reply)], Exec(INITIAL, es).resting[slot].oid);
  }

  lemma CompletingReport(s: State, slot: Slot, cum: int, reply: Reply)
    requires Ok(s) && slot in s.resting && !reply.Raised?
    requires cum >= s.resting[slot].count && cum >= Memory(s, s.resting[slot].oid)
    ensures var t := Step(s, Report(slot, cum, reply));
      slot !in t.resting && Hedge.Sum(Handed(t, s.resting[slot].oid)) == cum
  {
    assert SlotOk(s, slot);
    TakenSum(s, s.resting[slot].oid, cum, reply);
    ProcessKeepsHanded(s, slot, cum, reply);
  }

  /** A complete fill that meets a missing hedge book is dropped: the quote is no longer tracked, and
      nothing was placed. */
  lemma CompletedCanBeUnhedged() returns (es: seq<Event>)
    ensures Legal(INITIAL, es)
    ensures var s := Exec(INITIAL, es);
      s.filled == map["a" := 5] && !Tracked(s, "a") && Handed(s, "a") == [5] && Count(s.placed, "a") == 0
  {
    var (slot, rest, fill) := ((0, true), Rest((0, true), "a", 5), Fill("a", 5));
    var report := Report(slot, 5, NotHedged);
    ExecAppend(INITIAL, [], rest);
    ExecAppend(INITIAL, [] + [rest], fill);
    ExecAppend(INITIAL, [] + [rest] + [fill], report);
    es := [] + [rest] + [fill] + [report];
  }

  // ---------- untracked quotes ----------

  /** A quote that is no longer tracked is never hedged again, whatever is still reported about it. */
  lemma {:induction false} UntrackedStays(s: State, es: seq<Event>, oid: string)
    requires Ok(s) && Legal(s, es) && oid in s.filled && !Tracked(s, oid)
    ensures Ok(Exec(s, es)) && oid in Exec(s, es).filled && !Tracked(Exec(s, es), oid)
    ensures Handed(Exec(s, es), oid) == Handed(s, oid) && Count(Exec(s, es).placed, oid) == Count(s.placed, oid)
    ensures Exec(s, es).filled[oid] >= s.filled[oid]
    ensures Exec(s, es).filled[oid] == s.filled[oid] <==> forall e :: e in es ==> !(e.Fill? && e.oid == oid)
  {
    if es != [] {
      var init, e := es[..|es| - 1], es[|es| - 1];
      assert es == init + [e];
      UntrackedStays(s, init, oid);
      StepOk(Exec(s, init), e);
      UntrackedStep(Exec(s, init), e, oid);
    }
  }

  lemma UntrackedStep(s: State, e: Event, oid: string)
    requires Ok(s) && Possible(s, e) && oid in s.filled && !Tracked(s, oid)
    ensures var t := Step(s, e);
      && oid in t.filled && !Tracked(t, oid) && Handed(t, oid) == Handed(s, oid)
      && Count(t.placed, oid) == Count(s.placed, oid)
      && t.filled[oid] == s.filled[oid] + if e.Fill? && e.oid == oid then e.n else 0
  {
    if e.Report? && e.slot in s.resting {
      assert s.resting[e.slot].oid != oid;
      ProcessFrame(s, e.slot, e.cum, e.reply, oid);
      ProcessResting(s, e.slot, e.cum, e.reply);
    }
    forall slot | slot in Step(s, e).resting ensures Step(s, e).resting[slot].oid != oid {
      if slot in s.resting { assert s.resting[slot].oid != oid; }
    }
  }

  /** So from the moment a quote is untracked, however that came about, its fill ends up handed over in full
      if and only if it was then, and nothing more of it fills. */
  lemma UntrackedIsCompleteIff(s: State, es: seq<Event>, oid: string)
    requires Ok(s) && Legal(s, es) && oid in s.filled && !Tracked(s, oid)
    ensures oid in Exec(s, es).filled
    ensures Hedge.Sum(Handed(Exec(s, es), oid)) == Exec(s, es).filled[oid] <==>
      Hedge.Sum(Handed(s, oid)) == s.filled[oid] && forall e :: e in es ==> !(e.Fill? && e.oid == oid)
  {
    UntrackedStays(s, es, oid);
    assert OrderOk(s, oid);
  }

  /** A quote pulled between its fill and the report is never hedged. */
  lemma PulledFillIsLost() returns (es: seq<Event>)
    ensures Legal(INITIAL, es)
    ensures var s := Exec(INITIAL, es); s.filled == map["a" := 3] && !Tracked(s, "a") && Handed(s, "a") == []
  {
    var (slot, rest, fill) := ((0, true), Rest((0, true), "a", 5), Fill("a", 3));
    ExecAppend(INITIAL, [], rest);
    ExecAppend(INITIAL, [] + [rest], fill);
    ExecAppend(INITIAL, [] + [rest] + [fill], Pull(slot));
    es := [] + [rest] + [fill] + [Pull(slot)];
  }
}
