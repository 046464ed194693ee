/** Quote pricing (src/arbbot/exec/quoter.py: _touch_excl_self, _target, _hold_in_deadband). The profitable
    limit that comes from the hedge leg is an input. */
module Quoting {
  import opened Core
  import opened Books

  /** Our order as the quoter tracks it. */
  datatype Quote = Quote(price: real, count: real)

  // ---------- quantizing ----------

  /** The multiple of unit at or next below p. */
  function Down(p: real, unit: real): real
    requires unit > 0.0
  {
    (p / unit).Floor as real * unit
  }

  function Up(p: real, unit: real): real
    requires unit > 0.0
  {
    -Down(-p, unit)
  }

  /** Prices are not negative here, so rounding toward zero is rounding down, and away from zero up. */
  predicate Multiple(p: real, unit: real)
    requires unit > 0.0
  {
    Down(p, unit) == p
  }

  lemma DivideTimes(p: real, unit: real)
    requires unit > 0.0
    ensures p / unit * unit == p
  {}

  lemma TimesMonotone(a: real, b: real, unit: real)
    requires unit > 0.0 && a <= b
    ensures a * unit <= b * unit
  {}

  lemma CancelUnit(a: real, b: real, unit: real)
    requires unit > 0.0 && a * unit == b * unit
    ensures a == b
  {
    assert (a - b) * unit == 0.0;
  }

  lemma SignOfQuotient(d: real, unit: real)
    requires unit > 0.0 && d * unit >= 0.0
    ensures d >= 0.0
  {}

  lemma DivideMonotone(a: real, b: real, unit: real)
    requires unit > 0.0 && a <= b
    ensures a / unit <= b / unit
  {
    DivideTimes(a, unit);
    DivideTimes(b, unit);
    var d := b / unit - a / unit;
    assert d * unit == b / unit * unit - a / unit * unit;
    SignOfQuotient(d, unit);
  }

  lemma DownBelow(p: real, unit: real)
    requires unit > 0.0
    ensures Down(p, unit) <= p < Down(p, unit) + unit
  {
    var f := (p / unit).Floor as real;
    DivideTimes(p, unit);
    TimesMonotone(f, p / unit, unit);
    NextMultiple(f, p / unit, unit, p);
  }

  lemma ProductPositive(a: real, b: real)
    requires a > 0.0 && b > 0.0
    ensures a * b > 0.0
  {}

  lemma NextMultiple(f: real, x: real, unit: real, p: real)
    requires unit > 0.0 && x < f + 1.0 && x * unit == p
    ensures p < f * unit + unit
  {
    ProductPositive(f + 1.0 - x, unit);
    assert (f + 1.0 - x) * unit == f * unit + unit - p;
  }

  lemma DownMonotone(p: real, q: real, unit: real)
    requires unit > 0.0 && p <= q
    ensures Down(p, unit) <= Down(q, unit)
  {
    DivideMonotone(p, q, unit);
    TimesMonotone((p / unit).Floor as real, (q / unit).Floor as real, unit);
  }

  lemma DownIdempotent(p: real, unit: real)
    requires unit > 0.0
    ensures Multiple(Down(p, unit), unit)
  {
    var k := (p / unit).Floor;
    FloorOfMultiple(k, unit);
    assert Down(p, unit) == k as real * unit;
    assert Down(k as real * unit, unit) == k as real * unit;
  }

  lemma FloorOfMultiple(k: int, unit: real)
    requires unit > 0.0
    ensures (k as real * unit / unit).Floor == k
  {
    DivideTimes(k as real * unit, unit);
    CancelUnit(k as real * unit / unit, k as real, unit);
  }

  /** A multiple at or below q is at or below q rounded down, and the mirror image for rounding up. */
  lemma MultipleFits(m: real, q: real, unit: real)
    requires unit > 0.0
    ensures Multiple(m, unit) && m <= q ==> m <= Down(q, unit)
    ensures Multiple(-m, unit) && q <= m ==> Up(q, unit) <= m
    ensures q <= Up(q, unit)
  {
    if m <= q { DownMonotone(m, q, unit); }
    if q <= m { DownMonotone(-m, -q, unit); }
    DownBelow(-q, unit);
  }

  // ---------- the book as others make it ----------

  /** Best price on a side with our own resting order taken out of its level. */
  function TouchExclSelf(levels: seq<Level>, own: Option<Quote>): Option<real> {
    if levels == [] then None
    else
      var size := levels[0].size - if own.Some? && own.value.price == levels[0].price then own.value.count else 0.0;
      if size > 0.0 then Some(levels[0].price) else TouchExclSelf(levels[1..], own)
  }

  method ComputeTouchExclSelf(levels: seq<Level>, own: Option<Quote>) returns (touch: Option<real>)
    ensures touch == TouchExclSelf(levels, own)
  {
    for i := 0 to |levels|
      invariant TouchExclSelf(levels, own) == TouchExclSelf(levels[i..], own)
    {
      var size := levels[i].size;
      if own.Some? && levels[i].price == own.value.price { size := size - own.value.count; }
      assert levels[i..][1..] == levels[i + 1..];
      if size > 0.0 { return Some(levels[i].price); }
    }
    return None;
  }

  function Best(levels: seq<Level>): Option<real> {
    if levels == [] then None else Some(levels[0].price)
  }

  /** Sizes with our order added at its price. */
  function Plus(others: map<real, real>, own: Option<Quote>): map<real, real> {
    if own.None? then others
    else
      var q := own.value;
      others[q.price := (if q.price in others then others[q.price] else 0.0) + q.count]
  }

  /** levels is a ladder showing the others' orders and ours. */
  ghost predicate Displays(side: Side, levels: seq<Level>, others: map<real, real>, own: Option<Quote>) {
    && Strict(side, levels) && Represents(levels, Plus(others, own))
    && (forall p :: p in others ==> others[p] > 0.0)
    && (own.Some? ==> own.value.count > 0.0)
  }

  /** p is the others' best price on the side. */
  ghost predicate BestOf(side: Side, others: map<real, real>, p: Option<real>) {
    if p.None? then others == map[]
    else p.value in others && forall q :: q in others ==> q == p.value || Better(side, p.value, q)
  }

  lemma StrictTail(side: Side, levels: seq<Level>)
    requires levels != [] && Strict(side, levels)
    ensures Strict(side, levels[1..])
    ensures forall l :: l in levels[1..] ==> Better(side, levels[0].price, l.price)
  {
    var t := levels[1..];
    forall i, j | 0 <= i < j < |t| ensures Better(side, t[i].price, t[j].price) {
      assert t[i] == levels[i + 1] && t[j] == levels[j + 1];
    }
    forall l | l in t ensures Better(side, levels[0].price, l.price) {
      var i :| 0 <= i < |t| && t[i] == l;
      assert l == levels[i + 1];
    }
  }

  /** What of a level is not ours. */
  function Residual(l: Level, own: Option<Quote>): real {
    l.size - if own.Some? && own.value.price == l.price then own.value.count else 0.0
  }

  lemma {:induction false} TouchIsBestResidual(side: Side, levels: seq<Level>, own: Option<Quote>)
    requires Strict(side, levels)
    ensures TouchExclSelf(levels, own).None? ==> forall l :: l in levels ==> Residual(l, own) <= 0.0
    ensures var t := TouchExclSelf(levels, own);
      t.Some? ==>
        (exists l :: l in levels && l.price == t.value && Residual(l, own) > 0.0)
        && forall l :: l in levels && Residual(l, own) > 0.0 ==> l.price == t.value || Better(side, t.value, l.price)
  {
    if levels != [] {
      StrictTail(side, levels);
      TouchIsBestResidual(side, levels[1..], own);
      assert levels == [levels[0]] + levels[1..];
    }
  }

  /** Self-exclusion is exact: with our whole order visible, the competing touch is the others' best. */
  lemma TouchIsOthersBest(side: Side, levels: seq<Level>, others: map<real, real>, own: Option<Quote>)
    requires Displays(side, levels, others, own)
    ensures BestOf(side, others, TouchExclSelf(levels, own))
  {
    TouchIsBestResidual(side, levels, own);
    var all := Plus(others, own);
    forall l | l in levels ensures Residual(l, own) > 0.0 <==> l.price in others {
      assert all[l.price] == l.size;
    }
    forall p | p in others ensures Level(p, all[p]) in levels && Residual(Level(p, all[p]), own) > 0.0 {}
    var t := TouchExclSelf(levels, own);
    if t.Some? {
      forall q | q in others ensures q == t.value || Better(side, t.value, q) {
        assert Level(q, all[q]) in levels;
      }
    }
  }

  /** The first level of a strict ladder is the best price of what it represents. */
  lemma FirstIsBest(side: Side, levels: seq<Level>, all: map<real, real>)
    requires Strict(side, levels) && Represents(levels, all)
    ensures BestOf(side, all, Best(levels))
  {
    if levels == [] {
      forall p: real ensures p !in all {}
      assert all.Keys == {};
    } else {
      StrictTail(side, levels);
      assert levels[0] in levels;
      forall q | q in all ensures q == levels[0].price || Better(side, levels[0].price, q) {
        var l := Level(q, all[q]);
        assert l in levels;
        assert l == levels[0] || l in levels[1..];
      }
    }
  }

  /** Adding our order makes the best price the better of the two. */
  lemma PlusBest(side: Side, others: map<real, real>, own: Option<Quote>, best: Option<real>)
    requires BestOf(side, others, best)
    ensures BestOf(side, Plus(others, own), Touch(side, best, if own.Some? then Some(own.value.price) else None))
  {
    if own.Some? {
      var all := Plus(others, own);
      assert own.value.price in all;
      forall q | q in all ensures q == own.value.price || q in others {}
    }
  }

  /** The displayed touch is the better of the others' best and our own price. */
  lemma TouchIncludesOwn(side: Side, levels: seq<Level>, others: map<real, real>, own: Option<Quote>,
                         best: Option<real>)
    requires Displays(side, levels, others, own) && BestOf(side, others, best)
    ensures Best(levels) == Touch(side, best, if own.Some? then Some(own.value.price) else None)
  {
    var all := Plus(others, own);
    FirstIsBest(side, levels, all);
    PlusBest(side, others, own, best);
    BestIsUnique(side, all, Best(levels), Touch(side, best, if own.Some? then Some(own.value.price) else None));
  }

  function Touch(side: Side, a: Option<real>, b: Option<real>): Option<real> {
    if a.None? then b else if b.None? || !Better(side, b.value, a.value) then a else b
  }

  // ---------- the target price ----------

  /** What one side's target depends on besides the book: the venue tick, the quantum of the quantizer
      (equal to the tick when that is a power of ten), the safety buffer, and the most we may bid (or the
      least we may ask), already tightened by the return hurdle. */
  datatype Limits = Limits(tick: real, unit: real, buffer: real, pMax: Option<real>, pMin: Option<real>)

  predicate Sane(m: Limits) {
    m.tick > 0.0 && m.unit > 0.0
  }

  /** comp is the best competing bid, cur our resting bid, ask the displayed best ask. */
  function BidTarget(m: Limits, comp: Option<real>, cur: Option<real>, ask: Option<real>): Option<real>
    requires Sane(m)
  {
    if m.pMax.None? then None
    else
      var cap := m.pMax.value - m.buffer;
      if comp.None? then (if cur.Some? && cur.value <= cap then cur else None)
      else if cap < comp.value then None
      else
        var raw := Min(cap, comp.value + m.tick);
        var passive := if ask.Some? then Min(raw, ask.value - m.tick) else raw;
        if passive < comp.value then None else Some(Down(passive, m.unit))
  }

  function AskTarget(m: Limits, comp: Option<real>, cur: Option<real>, bid: Option<real>): Option<real>
    requires Sane(m)
  {
    if m.pMin.None? then None
    else
      var floor := m.pMin.value + m.buffer;
      if comp.None? then (if cur.Some? && cur.value >= floor then cur else None)
      else if floor > comp.value then None
      else
        var raw := Max(floor, comp.value - m.tick);
        var passive := if bid.Some? then Max(raw, bid.value + m.tick) else raw;
        if passive > comp.value then None else Some(Up(passive, m.unit))
  }

  function PriceOf(q: Option<Quote>): Option<real> {
    if q.Some? then Some(q.value.price) else None
  }

  /** _target on a displayed book; a suppressed side or a missing book gives none. */
  function Target(m: Limits, side: Side, suppressed: bool, book: Option<Book>, cur: Option<Quote>): Option<real>
    requires Sane(m)
  {
    if suppressed || book.None? then None
    else if side.Bid? then BidTarget(m, TouchExclSelf(book.value.bids, cur), PriceOf(cur), Best(book.value.asks))
    else AskTarget(m, TouchExclSelf(book.value.asks, cur), PriceOf(cur), Best(book.value.bids))
  }

  /** Every target is passive and profitable: a bid within the cap and, against competition, a tick clear
      of the displayed ask and at most a tick above the competition; the mirror image for an ask. */
  lemma TargetIsSafe(m: Limits, comp: Option<real>, cur: Option<real>, other: Option<real>)
    requires Sane(m)
    ensures var t := BidTarget(m, comp, cur, other);
      && (t.Some? ==> m.pMax.Some? && t.value <= m.pMax.value - m.buffer)
      && (t.Some? && comp.Some? ==> comp.value - m.unit < t.value <= comp.value + m.tick)
      && (t.Some? && comp.Some? && other.Some? ==> t.value <= other.value - m.tick)
    ensures var t := AskTarget(m, comp, cur, other);
      && (t.Some? ==> m.pMin.Some? && t.value >= m.pMin.value + m.buffer)
      && (t.Some? && comp.Some? ==> comp.value - m.tick <= t.value < comp.value + m.unit)
      && (t.Some? && comp.Some? && other.Some? ==> t.value >= other.value + m.tick)
  {
    if comp.Some? && m.pMax.Some? {
      var raw := Min(m.pMax.value - m.buffer, comp.value + m.tick);
      DownBelow(if other.Some? then Min(raw, other.value - m.tick) else raw, m.unit);
    }
    if comp.Some? && m.pMin.Some? {
      var raw := Max(m.pMin.value + m.buffer, comp.value - m.tick);
      DownBelow(-(if other.Some? then Max(raw, other.value + m.tick) else raw), m.unit);
    }
  }

  /** p is a multiple of the quantum within the profitable limit, a tick above the competition and a tick below
      the displayed ask. */
  predicate BidFits(m: Limits, comp: real, ask: Option<real>, p: real)
    requires Sane(m) && m.pMax.Some?
  {
    && Multiple(p, m.unit) && p <= m.pMax.value - m.buffer && p <= comp + m.tick
    && (ask.Some? ==> p <= ask.value - m.tick)
  }

  predicate AskFits(m: Limits, comp: real, bid: Option<real>, p: real)
    requires Sane(m) && m.pMin.Some?
  {
    && Multiple(-p, m.unit) && p >= m.pMin.value + m.buffer && p >= comp - m.tick
    && (bid.Some? ==> p >= bid.value + m.tick)
  }

  /** The best price a side may take: a bid is the greatest multiple of the quantum within the profitable
      limit, a tick above the competition and a tick below the displayed ask. There is none exactly without a
      limit, or when the limit or the ask leaves no room at the competing price. */
  lemma BidTargetIsGreatest(m: Limits, comp: real, cur: Option<real>, ask: Option<real>, p: real)
    requires Sane(m)
    ensures BidTarget(m, Some(comp), cur, ask).None? <==>
      m.pMax.None? || m.pMax.value - m.buffer < comp || (ask.Some? && ask.value - m.tick < comp)
    ensures BidTarget(m, Some(comp), cur, ask).Some? ==>
      && BidFits(m, comp, ask, BidTarget(m, Some(comp), cur, ask).value)
      && (BidFits(m, comp, ask, p) ==> p <= BidTarget(m, Some(comp), cur, ask).value)
  {
    TargetIsSafe(m, Some(comp), cur, ask);
    if m.pMax.Some? {
      var raw := Min(m.pMax.value - m.buffer, comp + m.tick);
      var passive := if ask.Some? then Min(raw, ask.value - m.tick) else raw;
      DownIdempotent(passive, m.unit);
      MultipleFits(p, passive, m.unit);
    }
  }

  /** ... and an ask the least, by symmetry. */
  lemma AskTargetIsLeast(m: Limits, comp: real, cur: Option<real>, bid: Option<real>, p: real)
    requires Sane(m)
    ensures AskTarget(m, Some(comp), cur, bid).None? <==>
      m.pMin.None? || m.pMin.value + m.buffer > comp || (bid.Some? && bid.value + m.tick > comp)
    ensures AskTarget(m, Some(comp), cur, bid).Some? ==>
      && AskFits(m, comp, bid, AskTarget(m, Some(comp), cur, bid).value)
      && (AskFits(m, comp, bid, p) ==> p >= AskTarget(m, Some(comp), cur, bid).value)
  {
    TargetIsSafe(m, Some(comp), cur, bid);
    AskMirrorsBid(m, Some(comp), cur, bid);
    BidTargetIsGreatest(FlipLimits(m), -comp, Neg(cur), Neg(bid), -p);
  }

  function OwnSideTouch(book: Book, side: Side, cur: Option<Quote>): Option<real> {
    TouchExclSelf(if side.Bid? then book.bids else book.asks, cur)
  }

  /** Without competition no price is invented: a quote of ours that is still within the profitable limit is held
      where it is, and otherwise there is none; nor is there for a suppressed side, or without a book or a limit. */
  lemma HoldsWithoutCompetition(m: Limits, side: Side, suppressed: bool, book: Option<Book>, cur: Option<Quote>)
    requires Sane(m)
    ensures suppressed || book.None? || (if side.Bid? then m.pMax.None? else m.pMin.None?) ==>
      Target(m, side, suppressed, book, cur) == None
    ensures !suppressed && book.Some? && OwnSideTouch(book.value, side, cur).None? ==>
      Target(m, side, suppressed, book, cur) ==
        if side.Bid? && m.pMax.Some? && cur.Some? && cur.value.price + m.buffer <= m.pMax.value then PriceOf(cur)
        else if side.Ask? && m.pMin.Some? && cur.Some? && cur.value.price - m.buffer >= m.pMin.value then PriceOf(cur)
        else None
  {}

  // ---------- no walking ----------

  /** The competition: the others' best bid and ask, which do not move. */
  datatype Competition = Competition(bid: Option<real>, ask: Option<real>)

  /** Our two quotes on one market. */
  datatype Own = Own(bid: Option<real>, ask: Option<real>)

  /** One re-evaluation of one side (deadband and jitter off): quote the target, or nothing. Our own quote
      on the other side is part of the displayed book. */
  function Requote(m: Limits, c: Competition, own: Own, side: Side): Own
    requires Sane(m)
  {
    if side.Bid? then own.(bid := BidTarget(m, c.bid, own.bid, Touch(Ask, c.ask, own.ask)))
    else own.(ask := AskTarget(m, c.ask, own.ask, Touch(Bid, c.bid, own.bid)))
  }

  /** Requote is what _target computes on the book that shows both our quotes among the others'. */
  lemma RequoteIsTarget(m: Limits, book: Book, bids: map<real, real>, asks: map<real, real>, c: Competition,
                        bid: Option<Quote>, ask: Option<Quote>)
    requires Sane(m)
    requires Displays(Bid, book.bids, bids, bid) && Displays(Ask, book.asks, asks, ask)
    requires BestOf(Bid, bids, c.bid) && BestOf(Ask, asks, c.ask)
    ensures Target(m, Bid, false, Some(book), bid) == Requote(m, c, Own(PriceOf(bid), PriceOf(ask)), Bid).bid
    ensures Target(m, Ask, false, Some(book), ask) == Requote(m, c, Own(PriceOf(bid), PriceOf(ask)), Ask).ask
  {
    TouchIsOthersBest(Bid, book.bids, bids, bid);
    TouchIsOthersBest(Ask, book.asks, asks, ask);
    BestIsUnique(Bid, bids, c.bid, TouchExclSelf(book.bids, bid));
    BestIsUnique(Ask, asks, c.ask, TouchExclSelf(book.asks, ask));
    TouchIncludesOwn(Bid, book.bids, bids, bid, c.bid);
    TouchIncludesOwn(Ask, book.asks, asks, ask, c.ask);
  }

  lemma BestIsUnique(side: Side, others: map<real, real>, a: Option<real>, b: Option<real>)
    requires BestOf(side, others, a) && BestOf(side, others, b)
    ensures a == b
  {
    match (a, b) {
      case (Some(p), Some(q)) =>
        assert p == q || Better(side, p, q);
        assert q == p || Better(side, q, p);
      case _ =>
    }
  }

  /** Rounding down a price that is still at or above a rounded one gives at least that one. */
  lemma DownKeeps(p: real, q: real, unit: real)
    requires unit > 0.0 && Down(p, unit) <= q
    ensures Down(p, unit) <= Down(q, unit)
    ensures q <= p ==> Down(q, unit) == Down(p, unit)
  {
    DownIdempotent(p, unit);
    MultipleFits(Down(p, unit), q, unit);
    if q <= p { DownMonotone(q, p, unit); }
  }

  /** A bid priced against some displayed ask keeps its price when the displayed ask changes, as long as the
      new one is at least a tick above it and not above the old one. */
  lemma BidStays(m: Limits, comp: Option<real>, cur: Option<real>, ask: Option<real>, ask': Option<real>)
    requires Sane(m) && comp.Some? && BidTarget(m, comp, cur, ask).Some?
    requires ask'.Some? && ask'.value >= BidTarget(m, comp, cur, ask).value + m.tick
    requires ask'.value >= comp.value + m.tick
    ensures BidTarget(m, comp, cur, ask').Some?
    ensures BidTarget(m, comp, cur, ask').value >= BidTarget(m, comp, cur, ask).value
    ensures (ask.Some? ==> ask'.value <= ask.value) ==> BidTarget(m, comp, cur, ask') == BidTarget(m, comp, cur, ask)
  {
    var raw := Min(m.pMax.value - m.buffer, comp.value + m.tick);
    var p := if ask.Some? then Min(raw, ask.value - m.tick) else raw;
    DownBelow(p, m.unit);
    DownKeeps(p, Min(raw, ask'.value - m.tick), m.unit);
  }

  /** A lower displayed ask never raises a bid target. */
  lemma BidFollowsAsk(m: Limits, comp: Option<real>, cur: Option<real>, ask: Option<real>, ask': Option<real>)
    requires Sane(m) && ask.Some? && (ask'.Some? ==> ask.value <= ask'.value)
    ensures BidTarget(m, comp, cur, ask').None? ==> BidTarget(m, comp, cur, ask).None?
    ensures BidTarget(m, comp, cur, ask).Some? ==>
      BidTarget(m, comp, cur, ask).value <= BidTarget(m, comp, cur, ask').value
  {
    if m.pMax.Some? && comp.Some? && BidTarget(m, comp, cur, ask).Some? {
      var raw := Min(m.pMax.value - m.buffer, comp.value + m.tick);
      DownMonotone(Min(raw, ask.value - m.tick), if ask'.Some? then Min(raw, ask'.value - m.tick) else raw, m.unit);
    }
  }

  // The two sides mirror each other under negated prices.

  function Neg(p: Option<real>): Option<real> {
    if p.Some? then Some(-p.value) else None
  }

  function FlipLimits(m: Limits): Limits {
    m.(pMax := Neg(m.pMin), pMin := Neg(m.pMax))
  }

  function FlipCompetition(c: Competition): Competition {
    Competition(Neg(c.ask), Neg(c.bid))
  }

  function FlipOwn(o: Own): Own {
    Own(Neg(o.ask), Neg(o.bid))
  }

  function Other(side: Side): Side {
    if side.Bid? then Ask else Bid
  }

  lemma AskMirrorsBid(m: Limits, comp: Option<real>, cur: Option<real>, other: Option<real>)
    requires Sane(m)
    ensures AskTarget(m, comp, cur, other) == Neg(BidTarget(FlipLimits(m), Neg(comp), Neg(cur), Neg(other)))
  {
    if m.pMin.None? || comp.None? {
    } else {
      var raw := Max(m.pMin.value + m.buffer, comp.value - m.tick);
      var p := if other.Some? then Max(raw, other.value + m.tick) else raw;
      var p' := BidPassive(FlipLimits(m), -comp.value, Neg(other));
      assert p' == -p;
      UpIsDown(p, p', m.unit);
    }
  }

  /** The bid before it is rounded. */
  function BidPassive(m: Limits, comp: real, ask: Option<real>): real
    requires m.pMax.Some?
  {
    var raw := Min(m.pMax.value - m.buffer, comp + m.tick);
    if ask.Some? then Min(raw, ask.value - m.tick) else raw
  }

  lemma UpIsDown(p: real, p': real, unit: real)
    requires unit > 0.0 && p' == -p
    ensures Up(p, unit) == -Down(p', unit)
  {}

  lemma NegNeg(m: Limits, p: Option<real>)
    ensures Neg(Neg(p)) == p && FlipLimits(FlipLimits(m)) == m
  {}

  lemma BidMirrorsAsk(m: Limits, comp: Option<real>, cur: Option<real>, other: Option<real>)
    requires Sane(m)
    ensures BidTarget(m, comp, cur, other) == Neg(AskTarget(FlipLimits(m), Neg(comp), Neg(cur), Neg(other)))
  {
    AskMirrorsBid(FlipLimits(m), Neg(comp), Neg(cur), Neg(other));
    NegNeg(m, comp);
    NegNeg(m, cur);
    NegNeg(m, other);
    NegNeg(m, BidTarget(m, comp, cur, other));
  }

  lemma TouchMirrors(side: Side, a: Option<real>, b: Option<real>)
    ensures Neg(Touch(side, a, b)) == Touch(Other(side), Neg(a), Neg(b))
  {}

  lemma RequoteMirrors(m: Limits, c: Competition, own: Own, side: Side)
    requires Sane(m)
    ensures FlipOwn(Requote(m, c, own, side)) == Requote(FlipLimits(m), FlipCompetition(c), FlipOwn(own), Other(side))
  {
    if side.Bid? {
      var other := Touch(Ask, c.ask, own.ask);
      TouchMirrors(Ask, c.ask, own.ask);
      AskMirrorsBid(FlipLimits(m), Neg(c.bid), Neg(own.bid), Neg(other));
      NegNeg(m, c.bid);
      NegNeg(m, own.bid);
      NegNeg(m, other);
    } else {
      TouchMirrors(Bid, c.bid, own.bid);
      BidMirrorsAsk(FlipLimits(m), Neg(c.ask), Neg(own.ask), Neg(Touch(Bid, c.bid, own.bid)));
      NegNeg(m, c.ask);
      NegNeg(m, own.ask);
      NegNeg(m, Touch(Bid, c.bid, own.bid));
    }
  }

  /** The side's quote is already what the next re-evaluation would make it. */
  predicate Fixed(m: Limits, c: Competition, own: Own, side: Side)
    requires Sane(m)
  {
    Requote(m, c, own, side) == own
  }

  predicate Quiet(m: Limits, c: Competition, own: Own)
    requires Sane(m)
  {
    Fixed(m, c, own, Bid) && Fixed(m, c, own, Ask)
  }

  lemma RequoteIsFixed(m: Limits, c: Competition, own: Own, side: Side)
    requires Sane(m)
    ensures Fixed(m, c, Requote(m, c, own, side), side)
  {}

  /** The ask re-priced against o1's bid is still right when the displayed bid has gone up since. */
  lemma AskHolds(m: Limits, comp: Option<real>, cur: Option<real>, bid: Option<real>, bid': Option<real>)
    requires Sane(m) && AskTarget(m, comp, cur, bid).Some? && comp.Some?
    requires bid.Some? && bid'.Some? && bid.value <= bid'.value
    requires bid'.value <= AskTarget(m, comp, cur, bid).value - m.tick && bid'.value <= comp.value - m.tick
    ensures AskTarget(m, comp, AskTarget(m, comp, cur, bid), bid') == AskTarget(m, comp, cur, bid)
  {
    AskStays(m, comp, cur, bid, bid');
  }

  /** No ask is posted at a bid that is too close to the competing ask, now as before. */
  lemma AskStaysOut(m: Limits, comp: Option<real>, cur: Option<real>, bid: Option<real>, bid': Option<real>)
    requires Sane(m) && comp.Some? && bid.Some? && bid'.Some? && AskTarget(m, comp, cur, bid).None?
    requires bid.value + m.tick > comp.value ==> bid'.value + m.tick > comp.value
    ensures AskTarget(m, comp, None, bid').None?
  {}

  /** The displayed bid after one more evaluation of the bid side is no lower, given that the ask that was
      priced against it keeps its distance. */
  lemma BidDoesNotFall(m: Limits, comp: Option<real>, cur: Option<real>, cur': Option<real>, ask: Option<real>,
                       ask': Option<real>)
    requires Sane(m) && comp.Some? && ask.Some? && ask'.Some?
    requires cur' == BidTarget(m, comp, cur, ask)
    requires ask'.value >= Touch(Bid, comp, cur').value + m.tick
    ensures Touch(Bid, comp, BidTarget(m, comp, cur', ask')).value >= Touch(Bid, comp, cur').value
  {
    if cur'.Some? { BidStays(m, comp, cur, ask, ask'); }
  }

  lemma {:induction false} AskSurvivesBid(m: Limits, c: Competition, own: Own, b1: Option<real>, a2: Option<real>,
                                          b3: Option<real>)
    requires Sane(m) && c.bid.Some? && c.ask.Some? && a2.Some?
    requires b1 == BidTarget(m, c.bid, own.bid, Touch(Ask, c.ask, own.ask))
    requires a2 == AskTarget(m, c.ask, own.ask, Touch(Bid, c.bid, b1))
    requires b3 == BidTarget(m, c.bid, b1, Touch(Ask, c.ask, a2))
    ensures AskTarget(m, c.ask, a2, Touch(Bid, c.bid, b3)) == a2
  {
    var bid, bid' := Touch(Bid, c.bid, b1), Touch(Bid, c.bid, b3);
    var ask, ask' := Touch(Ask, c.ask, own.ask), Touch(Ask, c.ask, a2);
    TargetIsSafe(m, c.bid, own.bid, ask);
    TargetIsSafe(m, c.bid, b1, ask');
    TargetIsSafe(m, c.ask, own.ask, bid);
    assert bid.value + m.tick <= c.ask.value;
    assert bid.value + m.tick <= a2.value;
    BidDoesNotFall(m, c.bid, own.bid, b1, ask, ask');
    assert bid'.value + m.tick <= ask'.value;
    AskHolds(m, c.ask, own.ask, bid, bid');
  }

  lemma AskStaysAway(m: Limits, c: Competition, own: Own, b1: Option<real>, b3: Option<real>)
    requires Sane(m) && c.bid.Some? && c.ask.Some?
    requires b1 == BidTarget(m, c.bid, own.bid, Touch(Ask, c.ask, own.ask))
    requires AskTarget(m, c.ask, own.ask, Touch(Bid, c.bid, b1)).None?
    ensures AskTarget(m, c.ask, None, Touch(Bid, c.bid, b3)).None?
  {
    TargetIsSafe(m, c.bid, own.bid, Touch(Ask, c.ask, own.ask));
    AskStaysOut(m, c.ask, own.ask, Touch(Bid, c.bid, b1), Touch(Bid, c.bid, b3));
  }

  /** Re-evaluating the bid, then the ask, then the bid again leaves nothing to do on the ask. */
  lemma {:induction false} BidAskBidIsQuiet(m: Limits, c: Competition, own: Own)
    requires Sane(m)
    ensures Quiet(m, c, Requote(m, c, Requote(m, c, Requote(m, c, own, Bid), Ask), Bid))
  {
    var o1 := Requote(m, c, own, Bid);
    var o2 := Requote(m, c, o1, Ask);
    var o3 := Requote(m, c, o2, Bid);
    RequoteIsFixed(m, c, o2, Bid);
    if c.bid.None? {
      assert o3 == o2;
      RequoteIsFixed(m, c, o1, Ask);
    } else if c.ask.Some? {
      if o2.ask.Some? {
        AskSurvivesBid(m, c, own, o1.bid, o2.ask, o3.bid);
      } else {
        AskStaysAway(m, c, own, o1.bid, o3.bid);
      }
    }
  }

  lemma {:induction false} ThreeRequotesAreQuiet(m: Limits, c: Competition, own: Own, side: Side)
    requires Sane(m)
    ensures Quiet(m, c, Requote(m, c, Requote(m, c, Requote(m, c, own, side), Other(side)), side))
  {
    if side.Bid? {
      BidAskBidIsQuiet(m, c, own);
    } else {
      var (fm, fc, fo) := (FlipLimits(m), FlipCompetition(c), FlipOwn(own));
      BidAskBidIsQuiet(fm, fc, fo);
      var o1 := Requote(m, c, own, Ask);
      var o2 := Requote(m, c, o1, Bid);
      var o3 := Requote(m, c, o2, Ask);
      RequoteMirrors(m, c, own, Ask);
      RequoteMirrors(m, c, o1, Bid);
      RequoteMirrors(m, c, o2, Ask);
      RequoteMirrors(m, c, o3, Bid);
      RequoteMirrors(m, c, o3, Ask);
      FlipInjective(Requote(m, c, o3, Bid), o3);
      FlipInjective(Requote(m, c, o3, Ask), o3);
    }
  }

  lemma FlipInjective(a: Own, b: Own)
    ensures FlipOwn(a) == FlipOwn(b) ==> a == b
  {
    assert FlipOwn(FlipOwn(a)) == a && FlipOwn(FlipOwn(b)) == b;
  }

  function Evolve(m: Limits, c: Competition, own: Own, schedule: seq<Side>): Own
    requires Sane(m)
    decreases |schedule|
  {
    if schedule == [] then own else Evolve(m, c, Requote(m, c, own, schedule[0]), schedule[1..])
  }

  /** How many re-evaluations of the schedule changed a quote. */
  function Moves(m: Limits, c: Competition, own: Own, schedule: seq<Side>): nat
    requires Sane(m)
    decreases |schedule|
  {
    if schedule == [] then 0
    else
      var next := Requote(m, c, own, schedule[0]);
      (if next != own then 1 else 0) + Moves(m, c, next, schedule[1..])
  }

  lemma {:induction false} QuietNeverMoves(m: Limits, c: Competition, own: Own, schedule: seq<Side>)
    requires Sane(m) && Quiet(m, c, own)
    ensures Moves(m, c, own, schedule) == 0 && Evolve(m, c, own, schedule) == own
    decreases |schedule|
  {
    if schedule != [] { QuietNeverMoves(m, c, own, schedule[1..]); }
  }

  lemma {:induction false} OneMoveLeft(m: Limits, c: Competition, own: Own, side: Side, schedule: seq<Side>)
    requires Sane(m) && Fixed(m, c, own, side) && Quiet(m, c, Requote(m, c, own, Other(side)))
    ensures Moves(m, c, own, schedule) <= 1
    decreases |schedule|
  {
    if schedule != [] {
      if schedule[0] == side {
        OneMoveLeft(m, c, own, side, schedule[1..]);
      } else {
        QuietNeverMoves(m, c, Requote(m, c, own, Other(side)), schedule[1..]);
      }
    }
  }

  lemma {:induction false} TwoMovesLeft(m: Limits, c: Competition, before: Own, side: Side, schedule: seq<Side>)
    requires Sane(m)
    ensures Moves(m, c, Requote(m, c, before, side), schedule) <= 2
    decreases |schedule|
  {
    var own := Requote(m, c, before, side);
    RequoteIsFixed(m, c, before, side);
    if schedule != [] {
      if schedule[0] == side {
        TwoMovesLeft(m, c, before, side, schedule[1..]);
      } else {
        var next := Requote(m, c, own, Other(side));
        RequoteIsFixed(m, c, own, Other(side));
        ThreeRequotesAreQuiet(m, c, before, side);
        OneMoveLeft(m, c, next, Other(side), schedule[1..]);
      }
    }
  }

  /** No walking: while the competition and the hedge leg stand still, our own quotes, whatever they start
      from and in whatever order the sides are re-evaluated, move at most three times and then rest. */
  lemma NoWalking(m: Limits, c: Competition, own: Own, schedule: seq<Side>)
    requires Sane(m)
    ensures Moves(m, c, own, schedule) <= 3
  {
    if schedule != [] { TwoMovesLeft(m, c, own, schedule[0], schedule[1..]); }
  }

  lemma {:induction false} FreshBidHolds(m: Limits, c: Competition)
    requires Sane(m)
    ensures Quiet(m, c, Requote(m, c, Requote(m, c, Own(None, None), Bid), Ask))
  {
    var o1 := Requote(m, c, Own(None, None), Bid);
    var o2 := Requote(m, c, o1, Ask);
    RequoteIsFixed(m, c, o1, Ask);
    if o2.ask.Some? && c.bid.Some? {
      TargetIsSafe(m, c.bid, None, c.ask);
      TargetIsSafe(m, c.ask, None, Touch(Bid, c.bid, o1.bid));
      if o1.bid.Some? {
        BidStays(m, c.bid, None, c.ask, Touch(Ask, c.ask, o2.ask));
      } else {
        BidFollowsAsk(m, c.bid, None, Touch(Ask, c.ask, o2.ask), c.ask);
      }
    }
  }

  /** Starting with nothing resting, the first quote placed on each side is also the last: once both sides
      have been evaluated, in either order, no further evaluation moves either. */
  lemma FreshQuotesHold(m: Limits, c: Competition, side: Side, schedule: seq<Side>)
    requires Sane(m)
    ensures var both := Requote(m, c, Requote(m, c, Own(None, None), side), Other(side));
      Quiet(m, c, both) && Evolve(m, c, both, schedule) == both
  {
    var none := Own(None, None);
    if side.Bid? {
      FreshBidHolds(m, c);
    } else {
      FreshBidHolds(FlipLimits(m), FlipCompetition(c));
      var o1 := Requote(m, c, none, Ask);
      var o2 := Requote(m, c, o1, Bid);
      RequoteMirrors(m, c, none, Ask);
      RequoteMirrors(m, c, o1, Bid);
      RequoteMirrors(m, c, o2, Bid);
      RequoteMirrors(m, c, o2, Ask);
      FlipInjective(Requote(m, c, o2, Bid), o2);
      FlipInjective(Requote(m, c, o2, Ask), o2);
    }
    QuietNeverMoves(m, c, Requote(m, c, Requote(m, c, none, side), Other(side)), schedule);
  }

  lemma AskStays(m: Limits, comp: Option<real>, cur: Option<real>, bid: Option<real>, bid': Option<real>)
    requires Sane(m) && comp.Some? && AskTarget(m, comp, cur, bid).Some?
    requires bid'.Some? && bid'.value <= AskTarget(m, comp, cur, bid).value - m.tick
    requires bid'.value <= comp.value - m.tick
    ensures AskTarget(m, comp, cur, bid').Some?
    ensures AskTarget(m, comp, cur, bid').value <= AskTarget(m, comp, cur, bid).value
    ensures (bid.Some? ==> bid'.value >= bid.value) ==> AskTarget(m, comp, cur, bid') == AskTarget(m, comp, cur, bid)
  {
    var f := FlipLimits(m);
    AskMirrorsBid(m, comp, cur, bid);
    AskMirrorsBid(m, comp, cur, bid');
    BidStays(f, Neg(comp), Neg(cur), Neg(bid), Neg(bid'));
  }

  // ---------- the return hurdle ----------

  const BASIS := 10000.0

  /** Rounds to four decimals, half to even. */
  function RoundHalfEven(x: real): real {
    var n := (x * BASIS).Floor;
    var rest := x * BASIS - n as real;
    (if rest < 0.5 || (rest == 0.5 && n % 2 == 0) then n else n + 1) as real / BASIS
  }

  /** What the lock must add: a/(1+a) for a return of a over the hold. */
  function ExactMargin(a: real): real
    requires a > 0.0
  {
    a / (1.0 + a)
  }

  /** _apr_margin: nothing without a hurdle or a resolution date. */
  function AprMargin(minApr: real, years: Option<real>): real {
    if minApr <= 0.0 || years.None? || years.value <= 0.0 || Times(minApr / 100.0, years.value) <= 0.0 then 0.0
    else RoundHalfEven(ExactMargin(Times(minApr / 100.0, years.value)))
  }

  /** A lock earns at least the return a on the capital it ties up. */
  predicate Clears(lock: real, a: real) {
    lock >= Times(a, 1.0 - lock)
  }

  /** A lock clears the hurdle exactly from a/(1+a) on. */
  lemma ClearsIff(lock: real, a: real)
    requires a > 0.0
    ensures Clears(lock, a) <==> lock >= ExactMargin(a)
  {
    var (m, b) := (ExactMargin(a), 1.0 + a);
    TimesQuotient(a, b);
    TimesSubtracts(1.0, lock, a);
    TimesZero(a);
    TimesAdds(1.0, a, lock);
    TimesZero(lock);
    TimesSwaps(a, lock, 1.0);
    TimesSwaps(b, lock, 1.0);
    TimesSwaps(b, m, 1.0);
    if lock >= m { TimesGrows(b, m, lock); } else { StrictlyGrows(b, lock, m); }
  }

  lemma StrictlyGrows(a: real, b: real, c: real)
    requires a > 0.0 && b < c
    ensures Times(a, b) < Times(a, c)
  {
    TimesSubtracts(c, b, a);
    TimesSign(a, c - b);
  }

  /** The fourth decimal is rounded down. */
  predicate RoundsDown(x: real) {
    var n := (x * BASIS).Floor;
    var rest := x * BASIS - n as real;
    0.0 < rest && (rest < 0.5 || (rest == 0.5 && n % 2 == 0))
  }

  /** The rounded value is a whole number of ten-thousandths, the nearest, and of two the even one. */
  lemma RoundIsNearest(x: real)
    ensures var n := (RoundHalfEven(x) * 10000.0).Floor;
      && RoundHalfEven(x) * 10000.0 == n as real && -0.5 <= x * 10000.0 - n as real <= 0.5
      && (x * 10000.0 - n as real == 0.5 || x * 10000.0 - n as real == -0.5 ==> n % 2 == 0)
  {
    var n := (x * BASIS).Floor;
    var m := if RoundHalfEven(x) == n as real / BASIS then n else n + 1;
    assert RoundHalfEven(x) * BASIS == m as real;
  }

  /** A fill at the margin clears the hurdle exactly when rounding did not cut the margin, and misses or exceeds it
      by at most half a basis point of a dollar; without a hurdle or a date nothing is added. */
  lemma HurdleClearedIff(minApr: real, years: real)
    requires minApr > 0.0 && years > 0.0
    ensures var a := Times(minApr / 100.0, years);
      && a > 0.0
      && (Clears(AprMargin(minApr, Some(years)), a) <==> !RoundsDown(ExactMargin(a)))
      && ExactMargin(a) - 0.00005 <= AprMargin(minApr, Some(years)) <= ExactMargin(a) + 0.00005
    ensures AprMargin(0.0, Some(years)) == AprMargin(minApr, None) == 0.0
  {
    var a := Times(minApr / 100.0, years);
    TimesSign(minApr / 100.0, years);
    ClearsIff(AprMargin(minApr, Some(years)), a);
  }

  /** One such cut: ten percent over a year needs 1/11, and 9.09 cents are asked for. */
  lemma HurdleCanBeMissed()
    ensures AprMargin(10.0, Some(1.0)) == 0.0909 && !Clears(AprMargin(10.0, Some(1.0)), Times(0.1, 1.0))
  {
    assert Times(10.0 / 100.0, 1.0) == 0.1;
    assert (0.1 / 1.1 * BASIS).Floor == 909;
  }
}
