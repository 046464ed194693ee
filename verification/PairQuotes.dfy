/** Both legs of a pair at once (src/arbbot/scan/scanner.py: maker_quote, maker_ask_quote; src/arbbot/exec/quoter.py:
    _target): the limit of a quote comes from the other leg's book, in which our own quotes may rest. */
module PairQuotes {
  import opened Core
  import opened Books
  import opened Fees
  import Exit
  import Quoting
  import QuoterRun
  import Walking

  /** A leg's market: its venue, tick, quantum of the quantizer, safety buffer and fee parameters. */
  datatype Market = Market(venue: Venue, tick: real, unit: real, buffer: real, category: string, override: Option<real>)

  /** A pair of markets, quoted for `clip` contracts. margin is what the return hurdle adds; riskless holds the
      quotes whose hedge makes a riskless basket. */
  datatype Pair = Pair(zero: Market, one: Market, fees: Schedule, clip: real, margin: real,
                       riskless: set<QuoterRun.Slot>)

  function MarketOf(p: Pair, leg: int): Market {
    if leg == 0 then p.zero else p.one
  }

  predicate SaneMarket(p: Pair, m: Market) {
    && m.tick > 0.0 && m.unit > 0.0 && m.buffer >= 0.0 && Quoting.Multiple(-1.0, m.unit)
    && TakerCoefficient(p.fees, m.venue, m.category, m.override) > 0.0
  }

  /** Positive taker fees, no rebates, and a quantum that divides the dollar. */
  predicate Sane(p: Pair) {
    && SaneMarket(p, p.zero) && SaneMarket(p, p.one)
    && p.clip > 0.0 && p.margin >= 0.0 && p.fees.kalshiMaker >= 0.0
  }

  // ---------- the limit of a quote ----------

  /** What NO costs, best first: the other leg's bids from the other side. */
  function NoAsks(bids: seq<Level>): seq<Level> {
    seq(|bids|, i requires 0 <= i < |bids| => Level(1.0 - bids[i].price, bids[i].size))
  }

  /** Average price and fee, a contract, of hedging a whole clip; nothing when the ladder is too thin. */
  function HedgeAt(p: Pair, hedge: Market, ladder: seq<Level>): Outcome<Option<(real, real)>>
    requires p.clip > 0.0
  {
    match Exit.CostOf(ladder, p.clip)
    case None => Good(None)
    case Some(cost) =>
      match LegFee(p.fees, hedge.venue, Taker, cost / p.clip, p.clip, hedge.category, hedge.override)
      case BadFill => BadFill
      case Good(fee) => Good(Some((cost / p.clip, fee / p.clip)))
  }

  /** maker_quote: the most a bid may rest at. */
  function MakerQuote(p: Pair, leg: int, hedgeBids: seq<Level>): Outcome<Option<real>>
    requires Sane(p)
  {
    var maker := MarketOf(p, leg);
    if QuoterRun.Slot(leg, Bid) !in p.riskless then Good(None)
    else
      match HedgeAt(p, MarketOf(p, 1 - leg), NoAsks(hedgeBids))
      case BadFill => BadFill
      case Good(None) => Good(None)
      case Good(Some((vwap, fee))) =>
        var rough := 1.0 - vwap - fee;
        if rough <= 0.0 then Good(None)
        else
          match Fee(p.fees, maker.venue, Maker, rough, p.clip, maker.category)
          case BadFill => BadFill
          case Good(makerFee) =>
            var net := rough - makerFee / p.clip;
            if net <= 0.0 then Good(None)
            else
              var price := Quoting.Down(net, maker.tick);
              Good(if price > 0.0 then Some(price) else None)
  }

  /** maker_ask_quote: the least an ask may rest at. */
  function MakerAskQuote(p: Pair, leg: int, hedgeAsks: seq<Level>): Outcome<Option<real>>
    requires Sane(p)
  {
    var maker := MarketOf(p, leg);
    if QuoterRun.Slot(leg, Ask) !in p.riskless then Good(None)
    else
      match HedgeAt(p, MarketOf(p, 1 - leg), hedgeAsks)
      case BadFill => BadFill
      case Good(None) => Good(None)
      case Good(Some((vwap, fee))) =>
        var rough := vwap + fee;
        match Fee(p.fees, maker.venue, Maker, Min(rough, 1.0), p.clip, maker.category)
        case BadFill => BadFill
        case Good(makerFee) =>
          var gross := rough + makerFee / p.clip;
          if gross >= 1.0 then Good(None)
          else
            var price := Quoting.Up(gross, maker.tick);
            Good(if price < 1.0 then Some(price) else None)
  }

  lemma {:induction false} CostBounds(ladder: seq<Level>, size: real, lo: real, hi: real)
    requires size > 0.0 && forall l :: l in ladder ==> l.size > 0.0 && lo <= l.price <= hi
    ensures Exit.CostOf(ladder, size).Some? ==> Times(size, lo) <= Exit.CostOf(ladder, size).value <= Times(size, hi)
  {
    if ladder != [] {
      var (l, take) := (ladder[0], Min(size, ladder[0].size));
      assert l in ladder && forall x :: x in ladder[1..] ==> x in ladder;
      TimesGrows(take, lo, l.price);
      TimesGrows(take, l.price, hi);
      if size - take != 0.0 {
        CostBounds(ladder[1..], size - take, lo, hi);
        TimesAdds(take, size - take, lo);
        TimesAdds(take, size - take, hi);
      }
    }
  }

  lemma QuotientBounds(cost: real, size: real, lo: real, hi: real)
    requires size > 0.0 && Times(size, lo) <= cost <= Times(size, hi)
    ensures lo <= cost / size <= hi
  {}

  lemma PositiveQuotient(a: real, b: real)
    requires b > 0.0
    ensures a > 0.0 ==> a / b > 0.0
    ensures a >= 0.0 ==> a / b >= 0.0
  {}

  /** A taker pays, except at a price of zero or one. */
  lemma TakerPays(p: Pair, m: Market, v: real)
    requires Sane(p) && SaneMarket(p, m) && 0.0 <= v <= 1.0
    ensures var fee := LegFee(p.fees, m.venue, Taker, v, p.clip, m.category, m.override);
      fee.Good? && fee.value >= 0.0 && (0.0 < v < 1.0 ==> fee.value > 0.0)
  {
    var k := TakerCoefficient(p.fees, m.venue, m.category, m.override);
    TimesSign(v, 1.0 - v);
    TimesSign(p.clip, Curve(v));
    TimesSign(k, Times(p.clip, Curve(v)));
    CeilCentsIsLeast(Times(k, Times(p.clip, Curve(v))));
  }

  lemma MakerPays(p: Pair, m: Market, v: real)
    requires Sane(p) && 0.0 <= v <= 1.0
    ensures var fee := Fee(p.fees, m.venue, Maker, v, p.clip, m.category); fee.Good? && fee.value >= 0.0
  {
    TimesSign(v, 1.0 - v);
    TimesSign(p.clip, Curve(v));
    TimesSign(p.fees.kalshiMaker, Times(p.clip, Curve(v)));
    CeilCentsIsLeast(Times(p.fees.kalshiMaker, Times(p.clip, Curve(v))));
  }

  /** Hedging costs at least the best price, and a fee on top unless that is one. */
  lemma HedgeBounds(p: Pair, m: Market, ladder: seq<Level>, best: real)
    requires Sane(p) && SaneMarket(p, m) && 0.0 < best <= 1.0
    requires forall l :: l in ladder ==> l.size > 0.0 && best <= l.price <= 1.0
    ensures var h := HedgeAt(p, m, ladder);
      && h.Good?
      && (h.value.Some? ==> best <= h.value.value.0 <= 1.0 && h.value.value.1 >= 0.0)
      && (h.value.Some? && h.value.value.0 < 1.0 ==> h.value.value.1 > 0.0)
  {
    CostBounds(ladder, p.clip, best, 1.0);
    if Exit.CostOf(ladder, p.clip).Some? {
      var v := Exit.CostOf(ladder, p.clip).value / p.clip;
      QuotientBounds(Exit.CostOf(ladder, p.clip).value, p.clip, best, 1.0);
      TakerPays(p, m, v);
      PositiveQuotient(LegFee(p.fees, m.venue, Taker, v, p.clip, m.category, m.override).value, p.clip);
    }
  }

  /** A bid's limit is below the best bid of the hedge leg. */
  lemma BidLimitIsBelow(p: Pair, leg: int, bids: seq<Level>, best: real)
    requires Sane(p) && 0.0 <= best < 1.0
    requires forall l :: l in bids ==> l.size > 0.0 && 0.0 <= l.price <= best
    ensures var q := MakerQuote(p, leg, bids); q.Good? && (q.value.Some? ==> q.value.value < best)
  {
    var (maker, hedge, ladder) := (MarketOf(p, leg), MarketOf(p, 1 - leg), NoAsks(bids));
    forall l | l in ladder ensures l.size > 0.0 && 1.0 - best <= l.price <= 1.0 {
      var i :| 0 <= i < |ladder| && ladder[i] == l;
      assert bids[i] in bids;
    }
    HedgeBounds(p, hedge, ladder, 1.0 - best);
    var h := HedgeAt(p, hedge, ladder);
    if h.value.Some? {
      var rough := 1.0 - h.value.value.0 - h.value.value.1;
      if rough > 0.0 {
        MakerPays(p, maker, rough);
        var makerFee := Fee(p.fees, maker.venue, Maker, rough, p.clip, maker.category).value;
        PositiveQuotient(makerFee, p.clip);
        Quoting.DownBelow(rough - makerFee / p.clip, maker.tick);
      }
    }
  }

  /** An ask's limit is above the best ask of the hedge leg. */
  lemma AskLimitIsAbove(p: Pair, leg: int, asks: seq<Level>, best: real)
    requires Sane(p) && 0.0 < best <= 1.0
    requires forall l :: l in asks ==> l.size > 0.0 && best <= l.price <= 1.0
    ensures var q := MakerAskQuote(p, leg, asks); q.Good? && (q.value.Some? ==> q.value.value > best)
  {
    var (maker, hedge) := (MarketOf(p, leg), MarketOf(p, 1 - leg));
    HedgeBounds(p, hedge, asks, best);
    var h := HedgeAt(p, hedge, asks);
    if h.value.Some? {
      var rough := h.value.value.0 + h.value.value.1;
      MakerPays(p, maker, Min(rough, 1.0));
      var makerFee := Fee(p.fees, maker.venue, Maker, Min(rough, 1.0), p.clip, maker.category).value;
      PositiveQuotient(makerFee, p.clip);
      Quoting.DownBelow(-(rough + makerFee / p.clip), maker.tick);
    }
  }

  // ---------- what a limit locks ----------

  /** The fee a hedge of the whole clip pays, when it costs this much. */
  function HedgeFee(p: Pair, leg: int, cost: real): Outcome<real>
    requires p.clip > 0.0
  {
    var hedge := MarketOf(p, 1 - leg);
    LegFee(p.fees, hedge.venue, Taker, cost / p.clip, p.clip, hedge.category, hedge.override)
  }

  function MakerFee(p: Pair, leg: int, price: real): Outcome<real> {
    Fee(p.fees, MarketOf(p, leg).venue, Maker, price, p.clip, MarketOf(p, leg).category)
  }

  /** The price of a bid at which only the maker fee is still to be paid: a dollar less the hedge and its fee, a
      contract. */
  function RoughBid(p: Pair, cost: real, hedgeFee: real): real
    requires p.clip > 0.0
  {
    1.0 - cost / p.clip - hedgeFee / p.clip
  }

  /** A clip bought at price and hedged by buying NO from these bids pays a dollar a contract, and that covers
      the clip, the hedge, its taker fee and a maker fee as of the price `at`. */
  predicate BidLocks(p: Pair, leg: int, bids: seq<Level>, price: real, at: real)
    requires p.clip > 0.0
  {
    var cost := Exit.CostOf(NoAsks(bids), p.clip);
    && cost.Some? && HedgeFee(p, leg, cost.value).Good? && MakerFee(p, leg, at).Good?
    && Times(p.clip, price) + cost.value + HedgeFee(p, leg, cost.value).value + MakerFee(p, leg, at).value <= p.clip
  }

  /** The quote is on the tick grid, and a clip filled there and hedged does not lose, with the maker fee as of
      the unrounded price. */
  predicate BidFits(p: Pair, leg: int, bids: seq<Level>, price: real)
    requires Sane(p)
  {
    var cost := Exit.CostOf(NoAsks(bids), p.clip);
    && price > 0.0 && Quoting.Multiple(price, MarketOf(p, leg).tick)
    && cost.Some? && HedgeFee(p, leg, cost.value).Good?
    && BidLocks(p, leg, bids, price, RoughBid(p, cost.value, HedgeFee(p, leg, cost.value).value))
  }

  lemma ClipTimes(clip: real, price: real, cost: real, hedgeFee: real, makerFee: real)
    requires clip > 0.0
    ensures var net := 1.0 - cost / clip - hedgeFee / clip - makerFee / clip;
      Times(clip, price) + cost + hedgeFee + makerFee <= clip <==> price <= net
  {
    var net := 1.0 - cost / clip - hedgeFee / clip - makerFee / clip;
    TimesQuotient(cost, clip);
    TimesQuotient(hedgeFee, clip);
    TimesQuotient(makerFee, clip);
    TimesSubtracts(1.0 - cost / clip - hedgeFee / clip, makerFee / clip, clip);
    TimesSubtracts(1.0 - cost / clip, hedgeFee / clip, clip);
    TimesSubtracts(1.0, cost / clip, clip);
    TimesZero(clip);
    TimesSwaps(clip, net, 1.0);
    TimesSwaps(clip, price, 1.0);
    if price <= net { TimesGrows(clip, price, net); } else { Quoting.StrictlyGrows(clip, net, price); }
  }

  lemma MakerFeeIs(p: Pair, leg: int, price: real)
    requires Sane(p)
    ensures MakerFee(p, leg, price).BadFill? <==> !(0.0 <= price <= 1.0)
    ensures MakerFee(p, leg, price).Good? ==> MakerFee(p, leg, price).value >= 0.0
  {
    if 0.0 <= price <= 1.0 { MakerPays(p, MarketOf(p, leg), price); }
  }

  /** A bid's limit is the greatest tick price at which a clip that is filled and hedged does not lose. There is
      none exactly when the hedge does not make the bid riskless or no tick price fits, the hedge leg being too
      thin for one; and pricing raises exactly when a fee is asked for out of range. */
  lemma BidLimitIsGreatest(p: Pair, leg: int, bids: seq<Level>, price: real)
    requires Sane(p)
    ensures var q := MakerQuote(p, leg, bids);
      var cost := Exit.CostOf(NoAsks(bids), p.clip);
      && (q.BadFill? <==>
           && QuoterRun.Slot(leg, Bid) in p.riskless && cost.Some?
           && (HedgeFee(p, leg, cost.value).BadFill?
               || RoughBid(p, cost.value, HedgeFee(p, leg, cost.value).value) > 1.0))
      && (q.Good? && q.value.Some? ==> BidFits(p, leg, bids, q.value.value) && QuoterRun.Slot(leg, Bid) in p.riskless)
      && (q.Good? && QuoterRun.Slot(leg, Bid) in p.riskless && BidFits(p, leg, bids, price) ==>
           q.value.Some? && price <= q.value.value)
  {
    var (maker, cost) := (MarketOf(p, leg), Exit.CostOf(NoAsks(bids), p.clip));
    if QuoterRun.Slot(leg, Bid) in p.riskless && cost.Some? && HedgeFee(p, leg, cost.value).Good? {
      var fee := HedgeFee(p, leg, cost.value).value;
      var rough := RoughBid(p, cost.value, fee);
      MakerFeeIs(p, leg, rough);
      if MakerFee(p, leg, rough).Good? {
        var net := rough - MakerFee(p, leg, rough).value / p.clip;
        PositiveQuotient(MakerFee(p, leg, rough).value, p.clip);
        ClipTimes(p.clip, price, cost.value, fee, MakerFee(p, leg, rough).value);
        ClipTimes(p.clip, Quoting.Down(net, maker.tick), cost.value, fee, MakerFee(p, leg, rough).value);
        Quoting.DownBelow(net, maker.tick);
        Quoting.DownIdempotent(net, maker.tick);
        Quoting.MultipleFits(price, net, maker.tick);
      }
    }
  }

  /** The price of an ask at which only the maker fee is still to be paid. */
  function RoughAsk(p: Pair, cost: real, hedgeFee: real): real
    requires p.clip > 0.0
  {
    cost / p.clip + hedgeFee / p.clip
  }

  /** A clip sold at price brings in enough for buying YES from these asks, the taker fee of that and a maker
      fee as of the price `at`. */
  predicate AskLocks(p: Pair, leg: int, asks: seq<Level>, price: real, at: real)
    requires p.clip > 0.0
  {
    var cost := Exit.CostOf(asks, p.clip);
    && cost.Some? && HedgeFee(p, leg, cost.value).Good? && MakerFee(p, leg, at).Good?
    && Times(p.clip, price) >= cost.value + HedgeFee(p, leg, cost.value).value + MakerFee(p, leg, at).value
  }

  predicate AskFits(p: Pair, leg: int, asks: seq<Level>, price: real)
    requires Sane(p)
  {
    var cost := Exit.CostOf(asks, p.clip);
    && price < 1.0 && Quoting.Multiple(-price, MarketOf(p, leg).tick)
    && cost.Some? && HedgeFee(p, leg, cost.value).Good?
    && AskLocks(p, leg, asks, price, Min(RoughAsk(p, cost.value, HedgeFee(p, leg, cost.value).value), 1.0))
  }

  lemma ClipCovers(clip: real, price: real, cost: real, hedgeFee: real, makerFee: real)
    requires clip > 0.0
    ensures Times(clip, price) >= cost + hedgeFee + makerFee <==>
      price >= cost / clip + hedgeFee / clip + makerFee / clip
  {
    ClipTimes(clip, 1.0 - price, cost, hedgeFee, makerFee);
    TimesSubtracts(1.0, price, clip);
    TimesZero(clip);
  }

  /** An ask's limit is the least tick price below a dollar at which a clip that is filled and hedged does not
      lose; there is none exactly when the hedge does not make the ask riskless or no tick price fits. */
  lemma AskLimitIsLeast(p: Pair, leg: int, asks: seq<Level>, price: real)
    requires Sane(p)
    ensures var q := MakerAskQuote(p, leg, asks);
      var cost := Exit.CostOf(asks, p.clip);
      && (q.BadFill? <==>
           && QuoterRun.Slot(leg, Ask) in p.riskless && cost.Some?
           && (HedgeFee(p, leg, cost.value).BadFill?
               || RoughAsk(p, cost.value, HedgeFee(p, leg, cost.value).value) < 0.0))
      && (q.Good? && q.value.Some? ==> AskFits(p, leg, asks, q.value.value) && QuoterRun.Slot(leg, Ask) in p.riskless)
      && (q.Good? && QuoterRun.Slot(leg, Ask) in p.riskless && AskFits(p, leg, asks, price) ==>
           q.value.Some? && price >= q.value.value)
  {
    var cost := Exit.CostOf(asks, p.clip);
    if QuoterRun.Slot(leg, Ask) in p.riskless && cost.Some? && HedgeFee(p, leg, cost.value).Good? {
      var rough := RoughAsk(p, cost.value, HedgeFee(p, leg, cost.value).value);
      MakerFeeIs(p, leg, Min(rough, 1.0));
      if MakerFee(p, leg, Min(rough, 1.0)).Good? {
        var gross := rough + MakerFee(p, leg, Min(rough, 1.0)).value / p.clip;
        AskFitsAbove(p, leg, asks, price, gross);
        AskFitsAbove(p, leg, asks, Quoting.Up(gross, MarketOf(p, leg).tick), gross);
        UpIsLeast(gross, price, MarketOf(p, leg).tick);
      }
    }
  }

  lemma UpIsLeast(x: real, price: real, tick: real)
    requires tick > 0.0
    ensures x <= Quoting.Up(x, tick) && Quoting.Multiple(-Quoting.Up(x, tick), tick)
    ensures Quoting.Multiple(-price, tick) && x <= price ==> Quoting.Up(x, tick) <= price
  {
    Quoting.DownIdempotent(-x, tick);
    Quoting.MultipleFits(price, x, tick);
  }

  lemma AskFitsAbove(p: Pair, leg: int, asks: seq<Level>, price: real, gross: real)
    requires Sane(p)
    requires var cost := Exit.CostOf(asks, p.clip);
      && cost.Some? && HedgeFee(p, leg, cost.value).Good?
      && var rough := RoughAsk(p, cost.value, HedgeFee(p, leg, cost.value).value);
         && MakerFee(p, leg, Min(rough, 1.0)).Good?
         && gross == rough + MakerFee(p, leg, Min(rough, 1.0)).value / p.clip
    ensures AskFits(p, leg, asks, price) <==>
      price < 1.0 && Quoting.Multiple(-price, MarketOf(p, leg).tick) && price >= gross
  {
    var cost := Exit.CostOf(asks, p.clip).value;
    var fee := HedgeFee(p, leg, cost).value;
    ClipCovers(p.clip, price, cost, fee, MakerFee(p, leg, Min(RoughAsk(p, cost, fee), 1.0)).value);
  }

  // ---------- with the fee of the price that is posted ----------

  /** What rounding a bid down to the tick leaves over. */
  function SpareBid(p: Pair, leg: int, bids: seq<Level>, price: real): real
    requires Sane(p) && BidFits(p, leg, bids, price)
  {
    var cost := Exit.CostOf(NoAsks(bids), p.clip).value;
    var fee := HedgeFee(p, leg, cost).value;
    p.clip - Times(p.clip, price) - cost - fee - MakerFee(p, leg, RoughBid(p, cost, fee)).value
  }

  function RoughOf(p: Pair, leg: int, bids: seq<Level>): real
    requires Sane(p) && Exit.CostOf(NoAsks(bids), p.clip).Some?
    requires HedgeFee(p, leg, Exit.CostOf(NoAsks(bids), p.clip).value).Good?
  {
    var cost := Exit.CostOf(NoAsks(bids), p.clip).value;
    RoughBid(p, cost, HedgeFee(p, leg, cost).value)
  }

  lemma {:induction false} CeilCentsMonotone(x: real, y: real)
    requires x <= y
    ensures CeilCents(x) <= CeilCents(y)
  {
    CeilCentsFits(x, Ceil(y * 100.0));
  }

  /** A price further from even odds, on the far side of them, has the lower curve. */
  lemma CurveFalls(x: real, y: real)
    requires x <= y && x + y <= 1.0
    ensures Curve(x) <= Curve(y)
  {
    var d := y - x;
    TimesSign(d, 1.0 - x - y);
    TimesSubtracts(y, x, 1.0 - x - y);
    TimesSubtracts(1.0 - x, y, y);
    TimesSubtracts(1.0 - y, x, x);
    TimesSwaps(x, y, 1.0);
    assert 1.0 - x - y == (1.0 - x) - y && 1.0 - x - y == (1.0 - y) - x;
    TimesSubtracts(1.0, x, y);
    TimesSubtracts(1.0, y, x);
    TimesSubtracts(1.0, x, x);
    TimesSubtracts(1.0, y, y);
  }

  /** The maker fee grows from one price to another only on Kalshi, and there only toward even odds. */
  lemma MakerFeeFalls(p: Pair, leg: int, x: real, y: real)
    requires Sane(p) && 0.0 <= x <= y <= 1.0
    requires MarketOf(p, leg).venue.Kalshi? ==> x + y <= 1.0
    ensures MakerFee(p, leg, x).Good? && MakerFee(p, leg, y).Good?
    ensures MakerFee(p, leg, x).value <= MakerFee(p, leg, y).value
  {
    if MarketOf(p, leg).venue.Kalshi? {
      CurveFalls(x, y);
      TimesGrows(p.clip, Curve(x), Curve(y));
      TimesGrows(p.fees.kalshiMaker, Times(p.clip, Curve(x)), Times(p.clip, Curve(y)));
      CeilCentsMonotone(Times(p.fees.kalshiMaker, Times(p.clip, Curve(x))),
                        Times(p.fees.kalshiMaker, Times(p.clip, Curve(y))));
    }
  }

  /** The fee is charged at the price that is posted, not at the unrounded one. A bid at its limit does not lose
      with that fee either if and only if the fee grows, from the unrounded price to the posted one, by no more
      than rounding to the tick left over. So it is on venues without a maker fee, and on Kalshi while the two
      prices average at most 50 cents. */
  lemma PostedBidLocksIff(p: Pair, leg: int, bids: seq<Level>)
    requires Sane(p) && MakerQuote(p, leg, bids).Good? && MakerQuote(p, leg, bids).value.Some?
    ensures var x := MakerQuote(p, leg, bids).value.value;
      && BidFits(p, leg, bids, x) && 0.0 < x <= RoughOf(p, leg, bids) <= 1.0
      && 0.0 <= SpareBid(p, leg, bids, x)
      && (BidLocks(p, leg, bids, x, x) <==>
           MakerFee(p, leg, x).value - MakerFee(p, leg, RoughOf(p, leg, bids)).value <= SpareBid(p, leg, bids, x))
      && (!MarketOf(p, leg).venue.Kalshi? || x + RoughOf(p, leg, bids) <= 1.0 ==> BidLocks(p, leg, bids, x, x))
  {
    var x := MakerQuote(p, leg, bids).value.value;
    BidLimitIsGreatest(p, leg, bids, x);
    var cost := Exit.CostOf(NoAsks(bids), p.clip).value;
    var fee := HedgeFee(p, leg, cost).value;
    var rough := RoughBid(p, cost, fee);
    assert rough == RoughOf(p, leg, bids);
    MakerFeeIs(p, leg, rough);
    ClipTimes(p.clip, x, cost, fee, MakerFee(p, leg, rough).value);
    PositiveQuotient(MakerFee(p, leg, rough).value, p.clip);
    MakerFeeIs(p, leg, x);
    if !MarketOf(p, leg).venue.Kalshi? || x + rough <= 1.0 { MakerFeeFalls(p, leg, x, rough); }
  }

  function SpareAsk(p: Pair, leg: int, asks: seq<Level>, price: real): real
    requires Sane(p) && AskFits(p, leg, asks, price)
  {
    var cost := Exit.CostOf(asks, p.clip).value;
    var fee := HedgeFee(p, leg, cost).value;
    Times(p.clip, price) - cost - fee - MakerFee(p, leg, Min(RoughAsk(p, cost, fee), 1.0)).value
  }

  /** The price an ask's fee was taken at. */
  function RoughAskOf(p: Pair, leg: int, asks: seq<Level>): real
    requires Sane(p) && Exit.CostOf(asks, p.clip).Some?
    requires HedgeFee(p, leg, Exit.CostOf(asks, p.clip).value).Good?
  {
    var cost := Exit.CostOf(asks, p.clip).value;
    Min(RoughAsk(p, cost, HedgeFee(p, leg, cost).value), 1.0)
  }

  lemma CurveMirrors(x: real)
    ensures Curve(1.0 - x) == Curve(x)
  {
    TimesSwaps(x, 1.0 - x, 1.0);
    assert 1.0 - (1.0 - x) == x;
  }

  lemma MakerFeeMirrors(p: Pair, leg: int, x: real)
    requires Sane(p) && 0.0 <= x <= 1.0
    ensures MakerFee(p, leg, 1.0 - x) == MakerFee(p, leg, x)
  {
    CurveMirrors(x);
  }

  /** The mirror image for an ask, whose posted price is above the unrounded one. */
  lemma PostedAskLocksIff(p: Pair, leg: int, asks: seq<Level>)
    requires Sane(p) && MakerAskQuote(p, leg, asks).Good? && MakerAskQuote(p, leg, asks).value.Some?
    ensures var x := MakerAskQuote(p, leg, asks).value.value;
      && AskFits(p, leg, asks, x) && 0.0 <= RoughAskOf(p, leg, asks) <= x < 1.0
      && 0.0 <= SpareAsk(p, leg, asks, x)
      && (AskLocks(p, leg, asks, x, x) <==>
           MakerFee(p, leg, x).value - MakerFee(p, leg, RoughAskOf(p, leg, asks)).value <= SpareAsk(p, leg, asks, x))
      && (!MarketOf(p, leg).venue.Kalshi? || x + RoughAskOf(p, leg, asks) >= 1.0 ==> AskLocks(p, leg, asks, x, x))
  {
    var x := MakerAskQuote(p, leg, asks).value.value;
    AskLimitIsLeast(p, leg, asks, x);
    var cost := Exit.CostOf(asks, p.clip).value;
    var fee := HedgeFee(p, leg, cost).value;
    var rough := RoughAsk(p, cost, fee);
    var at := Min(rough, 1.0);
    assert at == RoughAskOf(p, leg, asks);
    MakerFeeIs(p, leg, at);
    ClipCovers(p.clip, x, cost, fee, MakerFee(p, leg, at).value);
    PositiveQuotient(MakerFee(p, leg, at).value, p.clip);
    MakerFeeIs(p, leg, x);
    if !MarketOf(p, leg).venue.Kalshi? || x + at >= 1.0 {
      MakerFeeFalls(p, leg, 1.0 - x, 1.0 - at);
      MakerFeeMirrors(p, leg, x);
      MakerFeeMirrors(p, leg, at);
    }
  }

  const EXAMPLE := Pair(Market(Kalshi, 0.01, 0.01, 0.0, "default", None),
                        Market(PolymarketUs, 0.01, 0.01, 0.0, "default", None),
                        Schedule(0.07, 0.0175, false, map[], 0.04, 0.06), 10.0, 0.0, {QuoterRun.Slot(0, Bid)})

  /** One that does lose: ten contracts hedged at 80 and 79 cents are bid for at 78, where Kalshi's fee is a cent
      more than at the unrounded price. */
  lemma PostedFeeCanMiss() returns (bids: seq<Level>)
    ensures Sane(EXAMPLE) && MakerQuote(EXAMPLE, 0, bids) == Good(Some(0.78)) && !BidLocks(EXAMPLE, 0, bids, 0.78, 0.78)
  {
    bids := [Level(0.80, 3.0), Level(0.79, 10.0)];
    var ladder := NoAsks(bids);
    assert ladder == [Level(1.0 - 0.80, 3.0), Level(1.0 - 0.79, 10.0)];
    assert ladder[1..] == [Level(0.21, 10.0)];
    assert Exit.CostOf(ladder[1..], 7.0) == Some(1.47);
    assert Exit.CostOf(ladder, 10.0) == Some(2.07);
    assert Curve(0.207) == 0.164151;
    assert HedgeFee(EXAMPLE, 0, 2.07) == Good(0.0984906);
    assert RoughBid(EXAMPLE, 2.07, 0.0984906) == 0.78315094;
    assert MakerFee(EXAMPLE, 0, 0.78315094) == Good(0.03);
    assert MakerFee(EXAMPLE, 0, 0.78) == Good(0.04);
    assert Quoting.Down(0.78015094, 0.01) == 0.78;
  }

  // ---------- one side of both legs ----------

  /** a is no more aggressive a price than b. */
  predicate NoBetter(side: Side, a: real, b: real) {
    !Better(side, a, b)
  }

  /** A price at which hedging is possible at all. */
  predicate InRange(side: Side, price: real) {
    if side.Bid? then 0.0 <= price < 1.0 else 0.0 < price <= 1.0
  }

  function Levels(b: Book, side: Side): seq<Level> {
    if side.Bid? then b.bids else b.asks
  }

  /** The limit of a slot's quote when the hedge leg shows these levels on the same side. */
  function LimitOf(p: Pair, slot: QuoterRun.Slot, hedge: seq<Level>): Outcome<Option<real>>
    requires Sane(p)
  {
    if slot.side.Bid? then MakerQuote(p, slot.leg, hedge) else MakerAskQuote(p, slot.leg, hedge)
  }

  lemma LimitGap(p: Pair, slot: QuoterRun.Slot, hedge: seq<Level>, best: real)
    requires Sane(p) && InRange(slot.side, best)
    requires forall l :: l in hedge ==>
      l.size > 0.0 && InRange(slot.side, l.price) && NoBetter(slot.side, l.price, best)
    ensures var q := LimitOf(p, slot, hedge); q.Good? && (q.value.Some? ==> Better(slot.side, best, q.value.value))
  {
    if slot.side.Bid? { BidLimitIsBelow(p, slot.leg, hedge, best); } else { AskLimitIsAbove(p, slot.leg, hedge, best); }
  }

  /** What the books show without our orders. */
  datatype Base = Base(zero: Book, one: Book)

  function BookOf(base: Base, leg: int): Book {
    if leg == 0 then base.zero else base.one
  }

  predicate IsLeg(leg: int) {
    leg == 0 || leg == 1
  }

  function Across(slot: QuoterRun.Slot): QuoterRun.Slot {
    slot.(leg := 1 - slot.leg)
  }

  /** The others' sizes by price, per leg and side. */
  type Others = QuoterRun.Slot -> map<real, real>

  ghost predicate ShowsSide(others: Others, slot: QuoterRun.Slot, levels: seq<Level>, own: Option<Quoting.Quote>) {
    && Quoting.Displays(slot.side, levels, others(slot), own)
    && forall price :: price in others(slot) ==> InRange(slot.side, price)
  }

  ghost predicate BaseOk(others: Others, base: Base) {
    forall slot: QuoterRun.Slot :: IsLeg(slot.leg) ==>
      ShowsSide(others, slot, Levels(BookOf(base, slot.leg), slot.side), None)
  }

  function CompAt(base: Base, slot: QuoterRun.Slot): Option<real> {
    Quoting.Best(Levels(BookOf(base, slot.leg), slot.side))
  }

  function BaseLimit(p: Pair, base: Base, slot: QuoterRun.Slot): Option<real>
    requires Sane(p)
  {
    match LimitOf(p, slot, Levels(BookOf(base, 1 - slot.leg), slot.side))
    case Good(x) => x
    case BadFill => None
  }

  /** The limit less hurdle and buffer. */
  function Cap(p: Pair, slot: QuoterRun.Slot, limit: real): real {
    var extra := p.margin + MarketOf(p, slot.leg).buffer;
    if slot.side.Bid? then limit - extra else limit + extra
  }

  /** With the books as they are without us, the slot quotes: its limit reaches the competition. */
  predicate Quotes(p: Pair, base: Base, slot: QuoterRun.Slot)
    requires Sane(p)
  {
    var limit := BaseLimit(p, base, slot);
    limit.Some? && CompAt(base, slot).Some? && NoBetter(slot.side, CompAt(base, slot).value, Cap(p, slot, limit.value))
  }

  lemma CompIsBest(others: Others, base: Base, slot: QuoterRun.Slot)
    requires BaseOk(others, base) && IsLeg(slot.leg)
    ensures Quoting.BestOf(slot.side, others(slot), CompAt(base, slot))
    ensures CompAt(base, slot).Some? ==> InRange(slot.side, CompAt(base, slot).value)
  {
    var levels := Levels(BookOf(base, slot.leg), slot.side);
    assert ShowsSide(others, slot, levels, None);
    Quoting.FirstIsBest(slot.side, levels, others(slot));
  }

  /** Everything a side shows is sized, in range and no better than what bounds the others and us. */
  lemma LevelsBelow(others: Others, slot: QuoterRun.Slot, levels: seq<Level>, own: Option<Quoting.Quote>, bound: real)
    requires ShowsSide(others, slot, levels, own)
    requires forall q :: q in others(slot) ==> NoBetter(slot.side, q, bound)
    requires own.Some? ==> InRange(slot.side, own.value.price) && NoBetter(slot.side, own.value.price, bound)
    ensures forall l :: l in levels ==>
      l.size > 0.0 && InRange(slot.side, l.price) && NoBetter(slot.side, l.price, bound)
  {
    var all := Quoting.Plus(others(slot), own);
    forall l | l in levels
      ensures l.size > 0.0 && InRange(slot.side, l.price) && NoBetter(slot.side, l.price, bound)
    {
      assert l.price in all && all[l.price] == l.size;
      if l.price in others(slot) { assert others(slot)[l.price] > 0.0; }
    }
  }

  /** The limit without our orders lies beyond the hedge leg's competition, and there is none without any. */
  lemma BaseGap(p: Pair, others: Others, base: Base, slot: QuoterRun.Slot)
    requires Sane(p) && BaseOk(others, base) && IsLeg(slot.leg)
    ensures var limit := BaseLimit(p, base, slot);
      && LimitOf(p, slot, Levels(BookOf(base, 1 - slot.leg), slot.side)) == Good(limit)
      && (limit.Some? ==>
           && CompAt(base, Across(slot)).Some?
           && Better(slot.side, CompAt(base, Across(slot)).value, limit.value))
  {
    var hedge := Across(slot);
    var (levels, comp) := (Levels(BookOf(base, hedge.leg), hedge.side), CompAt(base, hedge));
    CompIsBest(others, base, hedge);
    assert ShowsSide(others, hedge, levels, None);
    if comp.Some? {
      LevelsBelow(others, hedge, levels, None, comp.value);
      LimitGap(p, slot, levels, comp.value);
    } else {
      EmptyLadder(p, slot);
    }
  }

  lemma EmptyLadder(p: Pair, slot: QuoterRun.Slot)
    requires Sane(p)
    ensures LimitOf(p, slot, []) == Good(None)
  {
    assert NoAsks([]) == [];
  }

  /** At most one leg of a pair quotes each side. */
  lemma OneLegQuotes(p: Pair, others: Others, base: Base, slot: QuoterRun.Slot)
    requires Sane(p) && BaseOk(others, base) && IsLeg(slot.leg)
    ensures !(Quotes(p, base, slot) && Quotes(p, base, Across(slot)))
  {
    BaseGap(p, others, base, slot);
    BaseGap(p, others, base, Across(slot));
    assert Across(Across(slot)) == slot;
  }

  // ---------- one ladder for one side of a book ----------

  lemma TailRepresents(levels: seq<Level>, all: map<real, real>)
    requires levels != [] && Represents(levels, all)
    ensures Represents(levels[1..], all - {levels[0].price})
  {
    var (rest, less) := (levels[1..], all - {levels[0].price});
    forall l | l in rest ensures l.price in less && less[l.price] == l.size {
      var i :| 0 <= i < |rest| && rest[i] == l;
      assert levels[i + 1] == l && l in levels && levels[0].price != levels[i + 1].price;
    }
    forall q | q in less ensures Level(q, less[q]) in rest {
      var i :| 0 <= i < |levels| && levels[i] == Level(q, all[q]);
      assert rest[i - 1] == levels[i];
    }
  }

  lemma {:induction false} LadderIsUnique(side: Side, a: seq<Level>, b: seq<Level>, all: map<real, real>)
    requires Strict(side, a) && Strict(side, b) && Represents(a, all) && Represents(b, all)
    ensures a == b
  {
    Quoting.FirstIsBest(side, a, all);
    Quoting.FirstIsBest(side, b, all);
    Quoting.BestIsUnique(side, all, Quoting.Best(a), Quoting.Best(b));
    if a != [] {
      assert a[0] in a && b[0] in b;
      TailRepresents(a, all);
      TailRepresents(b, all);
      Quoting.StrictTail(side, a);
      Quoting.StrictTail(side, b);
      LadderIsUnique(side, a[1..], b[1..], all - {a[0].price});
      assert a == [a[0]] + a[1..] && b == [b[0]] + b[1..];
    }
  }

  // ---------- an evaluation on the displayed books ----------

  function OwnQuote(s: QuoterRun.State, slot: QuoterRun.Slot): Option<Quoting.Quote> {
    if slot in s.resting then Some(Quoting.Quote(s.resting[slot].price, s.resting[slot].count as real)) else None
  }

  /** The book shows the others' orders of a leg, and ours. */
  ghost predicate ShowsLeg(others: Others, s: QuoterRun.State, leg: int, book: Book) {
    forall side ::
      ShowsSide(others, QuoterRun.Slot(leg, side), Levels(book, side), OwnQuote(s, QuoterRun.Slot(leg, side)))
  }

  function Tightened(p: Pair, side: Side, limit: Option<real>): Option<real> {
    if limit.None? then None else Some(if side.Bid? then limit.value - p.margin else limit.value + p.margin)
  }

  /** What a target depends on besides the leg's own book. */
  function LimitsFor(p: Pair, leg: int, bid: Option<real>, ask: Option<real>): Quoting.Limits {
    var m := MarketOf(p, leg);
    Quoting.Limits(m.tick, m.unit, m.buffer, Tightened(p, Bid, bid), Tightened(p, Ask, ask))
  }

  function BaseLimits(p: Pair, base: Base, leg: int): Quoting.Limits
    requires Sane(p)
  {
    LimitsFor(p, leg, BaseLimit(p, base, QuoterRun.Slot(leg, Bid)), BaseLimit(p, base, QuoterRun.Slot(leg, Ask)))
  }

  function Comp(base: Base, leg: int): Quoting.Competition {
    Quoting.Competition(CompAt(base, QuoterRun.Slot(leg, Bid)), CompAt(base, QuoterRun.Slot(leg, Ask)))
  }

  /** The limits a slot's target is computed with. */
  function SlotLimits(p: Pair, slot: QuoterRun.Slot, x: Option<real>): Quoting.Limits {
    if slot.side.Bid? then LimitsFor(p, slot.leg, x, None) else LimitsFor(p, slot.leg, None, x)
  }

  /** _target on the displayed books of both legs. */
  function TargetAt(p: Pair, slot: QuoterRun.Slot, own: Book, hedge: Book,
                    cur: Option<Quoting.Quote>): Outcome<Option<real>>
    requires Sane(p)
  {
    match LimitOf(p, slot, Levels(hedge, slot.side))
    case BadFill => BadFill
    case Good(x) => Good(Quoting.Target(SlotLimits(p, slot, x), slot.side, false, Some(own), cur))
  }

  lemma LockMonotone(p: Pair, leg: int, levels: seq<Level>, price: real, other: real, at: real)
    requires p.clip > 0.0
    ensures BidLocks(p, leg, levels, price, at) && other <= price ==> BidLocks(p, leg, levels, other, at)
    ensures AskLocks(p, leg, levels, price, at) && other >= price ==> AskLocks(p, leg, levels, other, at)
  {
    if other <= price { TimesGrows(p.clip, other, price); } else { TimesGrows(p.clip, price, other); }
  }

  /** Whatever the books show, a target leaves the hurdle's margin and the buffer a contract when it is filled and
      hedged, net of both fees, and only a quote whose hedge makes it riskless has one. */
  lemma TargetLocks(p: Pair, slot: QuoterRun.Slot, own: Book, hedge: Book, cur: Option<Quoting.Quote>)
    requires Sane(p)
    ensures var t := TargetAt(p, slot, own, hedge, cur);
      t.Good? && t.value.Some? ==>
        && slot in p.riskless
        && var extra := p.margin + MarketOf(p, slot.leg).buffer;
           if slot.side.Bid? then
             && Exit.CostOf(NoAsks(hedge.bids), p.clip).Some?
             && HedgeFee(p, slot.leg, Exit.CostOf(NoAsks(hedge.bids), p.clip).value).Good?
             && BidLocks(p, slot.leg, hedge.bids, t.value.value + extra, RoughOf(p, slot.leg, hedge.bids))
           else
             && Exit.CostOf(hedge.asks, p.clip).Some?
             && HedgeFee(p, slot.leg, Exit.CostOf(hedge.asks, p.clip).value).Good?
             && AskLocks(p, slot.leg, hedge.asks, t.value.value - extra, RoughAskOf(p, slot.leg, hedge.asks))
  {
    var t := TargetAt(p, slot, own, hedge, cur);
    if t.Good? && t.value.Some? {
      var limit := LimitOf(p, slot, Levels(hedge, slot.side)).value.value;
      var m := SlotLimits(p, slot, Some(limit));
      assert slot == QuoterRun.Slot(slot.leg, slot.side);
      if slot.side.Bid? {
        Quoting.TargetIsSafe(m, Quoting.TouchExclSelf(own.bids, cur), Quoting.PriceOf(cur), Quoting.Best(own.asks));
        BidLimitIsGreatest(p, slot.leg, hedge.bids, limit);
        LockMonotone(p, slot.leg, hedge.bids, limit, t.value.value + p.margin + m.buffer,
                     RoughOf(p, slot.leg, hedge.bids));
      } else {
        Quoting.TargetIsSafe(m, Quoting.TouchExclSelf(own.asks, cur), Quoting.PriceOf(cur), Quoting.Best(own.bids));
        AskLimitIsLeast(p, slot.leg, hedge.asks, limit);
        LockMonotone(p, slot.leg, hedge.asks, limit, t.value.value - p.margin - m.buffer,
                     RoughAskOf(p, slot.leg, hedge.asks));
      }
    }
  }

  /** Our quotes are where the books without us would allow them: only a slot that quotes holds one, within
      its limit. Nothing resting is the case to begin with. */
  predicate WithinAt(p: Pair, base: Base, s: QuoterRun.State, slot: QuoterRun.Slot)
    requires Sane(p)
  {
    slot in s.resting && IsLeg(slot.leg) ==>
      var r := s.resting[slot];
      && Quotes(p, base, slot) && r.count > 0 && InRange(slot.side, r.price)
      && NoBetter(slot.side, r.price, Cap(p, slot, BaseLimit(p, base, slot).value))
  }

  ghost predicate Within(p: Pair, base: Base, s: QuoterRun.State)
    requires Sane(p)
  {
    forall slot :: WithinAt(p, base, s, slot)
  }

  /** The re-quote of a slot under the limits without us. */
  function BaseTarget(p: Pair, base: Base, s: QuoterRun.State, slot: QuoterRun.Slot): Option<real>
    requires Sane(p)
  {
    var m := BaseLimits(p, base, slot.leg);
    Walking.SideOf(Quoting.Requote(m, Comp(base, slot.leg), Walking.OwnAt(s, slot.leg), slot.side), slot.side)
  }

  lemma BidLimitOnly(m: Quoting.Limits, n: Quoting.Limits, comp: Option<real>, cur: Option<real>, ask: Option<real>)
    requires Quoting.Sane(m) && n.tick == m.tick && n.unit == m.unit && n.buffer == m.buffer && n.pMax == m.pMax
    ensures Quoting.BidTarget(n, comp, cur, ask) == Quoting.BidTarget(m, comp, cur, ask)
  {}

  lemma AskLimitOnly(m: Quoting.Limits, n: Quoting.Limits, comp: Option<real>, cur: Option<real>, bid: Option<real>)
    requires Quoting.Sane(m) && n.tick == m.tick && n.unit == m.unit && n.buffer == m.buffer && n.pMin == m.pMin
    ensures Quoting.AskTarget(n, comp, cur, bid) == Quoting.AskTarget(m, comp, cur, bid)
  {}

  /** The other side's limit does not matter. */
  lemma OneSideOnly(p: Pair, base: Base, s: QuoterRun.State, slot: QuoterRun.Slot)
    requires Sane(p)
    ensures var m := SlotLimits(p, slot, BaseLimit(p, base, slot));
      Walking.SideOf(Quoting.Requote(m, Comp(base, slot.leg), Walking.OwnAt(s, slot.leg), slot.side), slot.side)
      == BaseTarget(p, base, s, slot)
  {
    var (n, m) := (SlotLimits(p, slot, BaseLimit(p, base, slot)), BaseLimits(p, base, slot.leg));
    var (c, own) := (Comp(base, slot.leg), Walking.OwnAt(s, slot.leg));
    assert slot == QuoterRun.Slot(slot.leg, slot.side);
    if slot.side.Bid? {
      BidLimitOnly(m, n, c.bid, own.bid, Quoting.Touch(Ask, c.ask, own.ask));
    } else {
      AskLimitOnly(m, n, c.ask, own.ask, Quoting.Touch(Bid, c.bid, own.bid));
    }
  }

  /** A slot whose limit does not reach the competition, and that holds no quote, gets none. */
  lemma NoTarget(p: Pair, base: Base, s: QuoterRun.State, slot: QuoterRun.Slot, m: Quoting.Limits, x: Option<real>)
    requires Sane(p) && slot !in s.resting
    requires m.tick > 0.0 && m.unit > 0.0 && m.buffer == MarketOf(p, slot.leg).buffer
    requires (if slot.side.Bid? then m.pMax else m.pMin) == Tightened(p, slot.side, x)
    requires x.Some? && CompAt(base, slot).Some? ==> Better(slot.side, CompAt(base, slot).value, Cap(p, slot, x.value))
    ensures
      Walking.SideOf(Quoting.Requote(m, Comp(base, slot.leg), Walking.OwnAt(s, slot.leg), slot.side), slot.side).None?
  {
    assert QuoterRun.Slot(slot.leg, slot.side) == slot;
  }

  /** What the displayed book of a slot's own leg makes of some limits. */
  lemma TargetIsRequote(p: Pair, others: Others, base: Base, s: QuoterRun.State, slot: QuoterRun.Slot, own: Book,
                        m: Quoting.Limits)
    requires BaseOk(others, base) && IsLeg(slot.leg) && ShowsLeg(others, s, slot.leg, own) && Quoting.Sane(m)
    ensures Quoting.Target(m, slot.side, false, Some(own), OwnQuote(s, slot))
         == Walking.SideOf(Quoting.Requote(m, Comp(base, slot.leg), Walking.OwnAt(s, slot.leg), slot.side), slot.side)
  {
    var (bid, ask) := (QuoterRun.Slot(slot.leg, Bid), QuoterRun.Slot(slot.leg, Ask));
    CompIsBest(others, base, bid);
    CompIsBest(others, base, ask);
    assert ShowsSide(others, bid, Levels(own, Bid), OwnQuote(s, bid));
    assert ShowsSide(others, ask, Levels(own, Ask), OwnQuote(s, ask));
    Quoting.RequoteIsTarget(m, own, others(bid), others(ask), Comp(base, slot.leg), OwnQuote(s, bid), OwnQuote(s, ask));
    assert slot == if slot.side.Bid? then bid else ask;
  }

  /** While the hedge leg holds no quote of ours on the side, its ladder there is the one without us. */
  lemma SameLimit(p: Pair, others: Others, base: Base, s: QuoterRun.State, slot: QuoterRun.Slot, hedge: Book)
    requires Sane(p) && BaseOk(others, base) && IsLeg(slot.leg) && ShowsLeg(others, s, 1 - slot.leg, hedge)
    requires Across(slot) !in s.resting
    ensures LimitOf(p, slot, Levels(hedge, slot.side)) == Good(BaseLimit(p, base, slot))
  {
    var across := Across(slot);
    var ladder := Levels(BookOf(base, across.leg), across.side);
    BaseGap(p, others, base, slot);
    assert across == QuoterRun.Slot(1 - slot.leg, slot.side);
    assert ShowsSide(others, across, Levels(hedge, across.side), OwnQuote(s, across));
    assert ShowsSide(others, across, ladder, None);
    LadderIsUnique(across.side, Levels(hedge, across.side), ladder, others(across));
  }

  /** What a quote within the bounds tells. */
  lemma WithinTold(p: Pair, base: Base, s: QuoterRun.State, slot: QuoterRun.Slot) returns (limit: real)
    requires Sane(p) && IsLeg(slot.leg) && Within(p, base, s) && slot in s.resting
    ensures BaseLimit(p, base, slot) == Some(limit) && CompAt(base, slot).Some?
    ensures var (price, cap) := (s.resting[slot].price, Cap(p, slot, limit));
      InRange(slot.side, price) && NoBetter(slot.side, price, cap) && NoBetter(slot.side, CompAt(base, slot).value, cap)
  {
    assert WithinAt(p, base, s, slot);
    limit := BaseLimit(p, base, slot).value;
  }

  lemma LimitIsShort(p: Pair, others: Others, base: Base, slot: QuoterRun.Slot, limit: real)
    requires Sane(p) && BaseOk(others, base) && IsLeg(slot.leg) && BaseLimit(p, base, Across(slot)) == Some(limit)
    ensures CompAt(base, slot).Some? && Better(slot.side, CompAt(base, slot).value, limit)
  {
    BaseGap(p, others, base, Across(slot));
    assert Across(Across(slot)) == slot;
  }

  lemma BelowCap(p: Pair, slot: QuoterRun.Slot, limit: real, comp: real, x: real)
    requires Sane(p) && IsLeg(slot.leg) && Better(slot.side, comp, limit) && NoBetter(slot.side, x, Cap(p, slot, limit))
    ensures Better(slot.side, comp, x)
  {}

  /** The better of our quote on the hedge leg and its competition there is still short of this leg's competition. */
  lemma OtherSideBound(p: Pair, others: Others, base: Base, s: QuoterRun.State, slot: QuoterRun.Slot)
    returns (bound: real)
    requires Sane(p) && BaseOk(others, base) && IsLeg(slot.leg) && Within(p, base, s) && Across(slot) in s.resting
    ensures CompAt(base, slot).Some? && CompAt(base, Across(slot)).Some?
    ensures Better(slot.side, CompAt(base, slot).value, bound) && InRange(slot.side, bound)
    ensures NoBetter(slot.side, s.resting[Across(slot)].price, bound)
    ensures NoBetter(slot.side, CompAt(base, Across(slot)).value, bound)
    ensures InRange(slot.side, s.resting[Across(slot)].price)
  {
    var across := Across(slot);
    var limit := WithinTold(p, base, s, across);
    LimitIsShort(p, others, base, slot, limit);
    CompIsBest(others, base, across);
    var (price, comp) := (s.resting[across].price, CompAt(base, across).value);
    BelowCap(p, across, limit, CompAt(base, slot).value, price);
    BelowCap(p, across, limit, CompAt(base, slot).value, comp);
    bound := if NoBetter(slot.side, comp, price) then price else comp;
  }

  /** And this leg does not quote the side. */
  lemma OtherSideQuotes(p: Pair, others: Others, base: Base, s: QuoterRun.State, slot: QuoterRun.Slot)
    requires Sane(p) && BaseOk(others, base) && IsLeg(slot.leg) && Within(p, base, s) && Across(slot) in s.resting
    ensures slot !in s.resting && !Quotes(p, base, slot)
  {
    assert WithinAt(p, base, s, slot) && WithinAt(p, base, s, Across(slot));
    OneLegQuotes(p, others, base, slot);
  }

  /** What the hedge leg shows, our quote included, is no better than the bound. */
  lemma ShownWithinBound(p: Pair, others: Others, base: Base, s: QuoterRun.State, slot: QuoterRun.Slot, hedge: Book,
                         bound: real)
    requires Sane(p) && BaseOk(others, base) && IsLeg(slot.leg) && ShowsLeg(others, s, 1 - slot.leg, hedge)
    requires Across(slot) in s.resting && InRange(slot.side, s.resting[Across(slot)].price)
    requires NoBetter(slot.side, s.resting[Across(slot)].price, bound) && CompAt(base, Across(slot)).Some?
    requires NoBetter(slot.side, CompAt(base, Across(slot)).value, bound) && InRange(slot.side, bound)
    ensures var q := LimitOf(p, slot, Levels(hedge, slot.side));
      q.Good? && (q.value.Some? ==> Better(slot.side, bound, q.value.value))
  {
    var across := Across(slot);
    assert across == QuoterRun.Slot(1 - slot.leg, slot.side);
    assert ShowsSide(others, across, Levels(hedge, across.side), OwnQuote(s, across));
    CompIsBest(others, base, across);
    LevelsBelow(others, across, Levels(hedge, across.side), OwnQuote(s, across), bound);
    LimitGap(p, slot, Levels(hedge, slot.side), bound);
  }

  /** A quote of ours on the hedge leg does not bring this leg's limit up to its competition. */
  lemma StaysOut(p: Pair, others: Others, base: Base, s: QuoterRun.State, slot: QuoterRun.Slot, hedge: Book)
    requires Sane(p) && BaseOk(others, base) && IsLeg(slot.leg) && ShowsLeg(others, s, 1 - slot.leg, hedge)
    requires Within(p, base, s) && Across(slot) in s.resting
    ensures slot !in s.resting && !Quotes(p, base, slot) && CompAt(base, slot).Some?
    ensures var q := LimitOf(p, slot, Levels(hedge, slot.side));
      q.Good? && (q.value.Some? ==> Better(slot.side, CompAt(base, slot).value, Cap(p, slot, q.value.value)))
  {
    OtherSideQuotes(p, others, base, s, slot);
    var bound := OtherSideBound(p, others, base, s, slot);
    ShownWithinBound(p, others, base, s, slot, hedge, bound);
  }

  /** On the displayed books of both legs, with our own orders in them, every target is the one that the
      limits without our orders give. */
  lemma TargetIsBase(p: Pair, others: Others, base: Base, s: QuoterRun.State, slot: QuoterRun.Slot, own: Book,
                     hedge: Book)
    requires Sane(p) && BaseOk(others, base) && IsLeg(slot.leg) && Within(p, base, s)
    requires ShowsLeg(others, s, slot.leg, own) && ShowsLeg(others, s, 1 - slot.leg, hedge)
    ensures TargetAt(p, slot, own, hedge, OwnQuote(s, slot)) == Good(BaseTarget(p, base, s, slot))
  {
    if Across(slot) !in s.resting {
      SameLimit(p, others, base, s, slot, hedge);
      TargetIsRequote(p, others, base, s, slot, own, SlotLimits(p, slot, BaseLimit(p, base, slot)));
      OneSideOnly(p, base, s, slot);
    } else {
      StaysOut(p, others, base, s, slot, hedge);
      var x := LimitOf(p, slot, Levels(hedge, slot.side)).value;
      TargetIsRequote(p, others, base, s, slot, own, SlotLimits(p, slot, x));
      NoTarget(p, base, s, slot, SlotLimits(p, slot, x), x);
      NoTarget(p, base, s, slot, BaseLimits(p, base, slot.leg), BaseLimit(p, base, slot));
    }
  }

  // ---------- runs ----------

  /** An evaluation of a slot of the pair: its target is what _target computes on the displayed books of both
      legs, its price is not jittered, and the venue does what it is told. Throttle and risk gate are free. */
  ghost predicate Sees(p: Pair, others: Others, s: QuoterRun.State, e: QuoterRun.Event, own: Book, hedge: Book)
    requires Sane(p)
  {
    && e.Evaluated? && IsLeg(e.slot.leg)
    && ShowsLeg(others, s, e.slot.leg, own) && ShowsLeg(others, s, 1 - e.slot.leg, hedge)
    && TargetAt(p, e.slot, own, hedge, OwnQuote(s, e.slot)) == Good(e.x.target)
    && e.x.hasDepth && e.x.tox.None? && e.x.size > 0 && (e.x.target.Some? ==> e.x.price == e.x.target.value)
    && e.x.cancel.CancelDone? && e.x.place.Accepted?
  }

  ghost predicate Evaluates(p: Pair, others: Others, s: QuoterRun.State, e: QuoterRun.Event)
    requires Sane(p)
  {
    exists own, hedge :: Sees(p, others, s, e, own, hedge)
  }

  /** The run evaluates slots of the pair, in any order, while the others' orders stand still. */
  ghost predicate AllEvaluate(c: QuoterRun.Config, p: Pair, others: Others, s: QuoterRun.State,
                              es: seq<QuoterRun.Event>)
    requires Sane(p)
  {
    es == [] || (&& AllEvaluate(c, p, others, s, es[..|es| - 1])
                 && Evaluates(p, others, QuoterRun.Exec(c, s, es[..|es| - 1]), es[|es| - 1]))
  }

  lemma BaseIsSane(p: Pair, base: Base, leg: int)
    requires Sane(p)
    ensures Quoting.Sane(BaseLimits(p, base, leg))
  {}

  /** To its leg, such an evaluation is an undisturbed one with the limits that the books without us give. */
  lemma EvaluatesUndisturbed(p: Pair, others: Others, base: Base, s: QuoterRun.State, e: QuoterRun.Event)
    requires Sane(p) && BaseOk(others, base) && Within(p, base, s) && Evaluates(p, others, s, e)
    ensures e.Evaluated? && IsLeg(e.slot.leg) && Quoting.Sane(BaseLimits(p, base, e.slot.leg))
    ensures Walking.Undisturbed(BaseLimits(p, base, e.slot.leg), Comp(base, e.slot.leg), e.slot.leg, s, e)
    ensures e.x.target == BaseTarget(p, base, s, e.slot) && e.x.size > 0
  {
    var own, hedge :| Sees(p, others, s, e, own, hedge);
    BaseIsSane(p, base, e.slot.leg);
    TargetIsBase(p, others, base, s, e.slot, own, hedge);
  }

  lemma DownInRange(price: real, unit: real)
    requires unit > 0.0
    ensures price >= 0.0 ==> Quoting.Down(price, unit) >= 0.0
    ensures Quoting.Multiple(-1.0, unit) && price <= 1.0 ==> Quoting.Up(price, unit) <= 1.0
  {
    Quoting.MultipleFits(0.0, price, unit);
    Quoting.MultipleFits(1.0, price, unit);
    assert Quoting.Down(0.0, unit) == 0.0;
  }

  /** Where a target puts a quote. */
  lemma TargetWithin(p: Pair, others: Others, base: Base, s: QuoterRun.State, slot: QuoterRun.Slot)
    requires Sane(p) && BaseOk(others, base) && IsLeg(slot.leg) && Within(p, base, s)
    ensures var t := BaseTarget(p, base, s, slot);
      t.Some? ==>
        && Quotes(p, base, slot) && InRange(slot.side, t.value)
        && NoBetter(slot.side, t.value, Cap(p, slot, BaseLimit(p, base, slot).value))
  {
    var (m, c, own) := (BaseLimits(p, base, slot.leg), Comp(base, slot.leg), Walking.OwnAt(s, slot.leg));
    assert WithinAt(p, base, s, slot);
    assert slot == QuoterRun.Slot(slot.leg, slot.side);
    BaseGap(p, others, base, slot);
    CompIsBest(others, base, slot);
    CompIsBest(others, base, Across(slot));
    if CompAt(base, slot).None? {
      assert Walking.SideOf(own, slot.side).None?;
    } else if slot.side.Bid? {
      Quoting.TargetIsSafe(m, c.bid, own.bid, Quoting.Touch(Ask, c.ask, own.ask));
      BidInRange(m, c.bid, own.bid, Quoting.Touch(Ask, c.ask, own.ask));
    } else {
      Quoting.TargetIsSafe(m, c.ask, own.ask, Quoting.Touch(Bid, c.bid, own.bid));
      AskInRange(m, c.ask, own.ask, Quoting.Touch(Bid, c.bid, own.bid));
    }
  }

  lemma BidInRange(m: Quoting.Limits, comp: Option<real>, cur: Option<real>, ask: Option<real>)
    requires Quoting.Sane(m) && comp.Some? && comp.value >= 0.0
    ensures var t := Quoting.BidTarget(m, comp, cur, ask); t.Some? ==>
      t.value >= 0.0 && m.pMax.value - m.buffer >= comp.value
  {
    if m.pMax.Some? {
      var raw := Min(m.pMax.value - m.buffer, comp.value + m.tick);
      DownInRange(if ask.Some? then Min(raw, ask.value - m.tick) else raw, m.unit);
    }
  }

  lemma AskInRange(m: Quoting.Limits, comp: Option<real>, cur: Option<real>, bid: Option<real>)
    requires Quoting.Sane(m) && comp.Some? && comp.value <= 1.0 && Quoting.Multiple(-1.0, m.unit)
    ensures var t := Quoting.AskTarget(m, comp, cur, bid); t.Some? ==>
      t.value <= 1.0 && m.pMin.value + m.buffer <= comp.value
  {
    if m.pMin.Some? {
      var raw := Max(m.pMin.value + m.buffer, comp.value - m.tick);
      DownInRange(if bid.Some? then Max(raw, bid.value + m.tick) else raw, m.unit);
    }
  }

  /** After an evaluation a slot holds what it held, or nothing, or the evaluated slot holds the new order. */
  lemma AfterEvaluation(c: QuoterRun.Config, s: QuoterRun.State, e: QuoterRun.Event, slot: QuoterRun.Slot)
    requires QuoterRun.Ok(s) && e.Evaluated? && e.x.place.Accepted?
    ensures var t := QuoterRun.Step(c, s, e);
      slot in t.resting ==>
        || (slot in s.resting && t.resting[slot] == s.resting[slot])
        || (slot == e.slot && QuoterRun.Sends(c, s, slot, e.x, e.now)
            && t.resting[slot].price == e.x.price && t.resting[slot].count == e.x.size)
  {
    var effect := QuoterRun.EffectOf(c, s, e.slot, e.x, e.now);
    QuoterRun.EvaluateShape(c, s, e.slot, e.x, e.now);
    if slot != e.slot {
      QuoterRun.EffectKeeps(c, s, e.slot, e.x, e.now, effect, slot);
    } else if effect.Placing? {
      QuoterRun.PlaceTracks(c, QuoterRun.Base(s, slot), slot, e.x, e.now, QuoterRun.Replaced(s, slot));
    }
  }

  lemma WithinStays(c: QuoterRun.Config, p: Pair, others: Others, base: Base, s: QuoterRun.State, e: QuoterRun.Event)
    requires Sane(p) && BaseOk(others, base) && Within(p, base, s) && QuoterRun.Ok(s) && Evaluates(p, others, s, e)
    ensures Within(p, base, QuoterRun.Step(c, s, e))
  {
    var t := QuoterRun.Step(c, s, e);
    EvaluatesUndisturbed(p, others, base, s, e);
    forall slot ensures WithinAt(p, base, t, slot) {
      assert WithinAt(p, base, s, slot);
      AfterEvaluation(c, s, e, slot);
      TargetWithin(p, others, base, s, e.slot);
    }
  }

  /** To either leg, the whole run is undisturbed, with limits that stand still. */
  lemma {:induction false} PairUndisturbed(c: QuoterRun.Config, p: Pair, others: Others, base: Base, s: QuoterRun.State,
                                           es: seq<QuoterRun.Event>, leg: int)
    requires Sane(p) && BaseOk(others, base) && Within(p, base, s) && QuoterRun.Ok(s) && IsLeg(leg)
    ensures Quoting.Sane(BaseLimits(p, base, leg))
    ensures QuoterRun.Legal(c, s, es) && AllEvaluate(c, p, others, s, es) ==>
      && QuoterRun.Ok(QuoterRun.Exec(c, s, es)) && Within(p, base, QuoterRun.Exec(c, s, es))
      && Walking.AllUndisturbed(c, BaseLimits(p, base, leg), Comp(base, leg), leg, s, es)
    decreases |es|
  {
    BaseIsSane(p, base, leg);
    if es != [] && QuoterRun.Legal(c, s, es) && AllEvaluate(c, p, others, s, es) {
      var (init, e) := (es[..|es| - 1], es[|es| - 1]);
      PairUndisturbed(c, p, others, base, s, init, leg);
      var t := QuoterRun.Exec(c, s, init);
      EvaluatesUndisturbed(p, others, base, t, e);
      WithinStays(c, p, others, base, t, e);
      QuoterRun.StepOk(c, t, e);
    }
  }

  // ---------- how many orders ----------

  /** The side never gets a first quote. */
  predicate Closed(m: Quoting.Limits, comp: Quoting.Competition, side: Side) {
    if side.Bid? then m.pMax.None? || comp.bid.None? || m.pMax.value - m.buffer < comp.bid.value
    else m.pMin.None? || comp.ask.None? || m.pMin.value + m.buffer > comp.ask.value
  }

  lemma {:induction false} ClosedSideMoves(m: Quoting.Limits, comp: Quoting.Competition, own: Quoting.Own, side: Side,
                                           schedule: seq<Side>)
    requires Quoting.Sane(m) && Closed(m, comp, side) && Walking.SideOf(own, side).None?
    ensures Quoting.Moves(m, comp, own, schedule) <= 1
    ensures Closed(m, comp, Quoting.Other(side)) && Walking.SideOf(own, Quoting.Other(side)).None? ==>
      Quoting.Moves(m, comp, own, schedule) == 0
    decreases |schedule|
  {
    if schedule != [] {
      var next := Quoting.Requote(m, comp, own, schedule[0]);
      if next == own {
        ClosedSideMoves(m, comp, own, side, schedule[1..]);
      } else {
        assert schedule[0] == Quoting.Other(side);
        Quoting.RequoteIsFixed(m, comp, own, schedule[0]);
        assert Quoting.Fixed(m, comp, next, side);
        Quoting.QuietNeverMoves(m, comp, next, schedule[1..]);
      }
    }
  }

  /** From flat, a leg moves its two quotes at most twice: once each. */
  lemma {:induction false} FlatMoves(m: Quoting.Limits, comp: Quoting.Competition, schedule: seq<Side>)
    requires Quoting.Sane(m)
    ensures Quoting.Moves(m, comp, Quoting.Own(None, None), schedule) <= 2
  {
    if schedule != [] {
      var (flat, side) := (Quoting.Own(None, None), schedule[0]);
      var first := Quoting.Requote(m, comp, flat, side);
      Quoting.RequoteIsFixed(m, comp, flat, side);
      Quoting.FreshQuotesHold(m, comp, side, []);
      Quoting.OneMoveLeft(m, comp, first, side, schedule[1..]);
    }
  }

  /** The moves a leg's quotes have left at most. */
  function MovesLeft(p: Pair, base: Base, s: QuoterRun.State, leg: int): nat
    requires Sane(p)
  {
    var (bid, ask) := (QuoterRun.Slot(leg, Bid), QuoterRun.Slot(leg, Ask));
    if !Quotes(p, base, bid) && !Quotes(p, base, ask) then 0
    else if !Quotes(p, base, bid) || !Quotes(p, base, ask) then 1
    else if bid !in s.resting && ask !in s.resting then 2 else 3
  }

  lemma QuotesNot(p: Pair, base: Base, s: QuoterRun.State, slot: QuoterRun.Slot)
    requires Sane(p) && IsLeg(slot.leg) && Within(p, base, s) && !Quotes(p, base, slot)
    ensures Closed(BaseLimits(p, base, slot.leg), Comp(base, slot.leg), slot.side)
    ensures Walking.SideOf(Walking.OwnAt(s, slot.leg), slot.side).None?
  {
    assert WithinAt(p, base, s, slot);
    assert QuoterRun.Slot(slot.leg, slot.side) == slot;
  }

  lemma LegMoves(p: Pair, base: Base, s: QuoterRun.State, leg: int)
    requires Sane(p) && IsLeg(leg) && Within(p, base, s)
    ensures Quoting.Sane(BaseLimits(p, base, leg))
    ensures Walking.AtMost(BaseLimits(p, base, leg), Comp(base, leg), Walking.OwnAt(s, leg), MovesLeft(p, base, s, leg))
  {
    var (m, c, own) := (BaseLimits(p, base, leg), Comp(base, leg), Walking.OwnAt(s, leg));
    var (bid, ask) := (QuoterRun.Slot(leg, Bid), QuoterRun.Slot(leg, Ask));
    BaseIsSane(p, base, leg);
    forall schedule ensures Quoting.Moves(m, c, own, schedule) <= MovesLeft(p, base, s, leg) {
      if !Quotes(p, base, bid) {
        QuotesNot(p, base, s, bid);
        if !Quotes(p, base, ask) { QuotesNot(p, base, s, ask); }
        ClosedSideMoves(m, c, own, Bid, schedule);
      } else if !Quotes(p, base, ask) {
        QuotesNot(p, base, s, ask);
        ClosedSideMoves(m, c, own, Ask, schedule);
      } else if bid !in s.resting && ask !in s.resting {
        FlatMoves(m, c, schedule);
      } else {
        Quoting.NoWalking(m, c, own, schedule);
      }
    }
  }

  lemma MovesOnThePair(p: Pair, others: Others, base: Base, s: QuoterRun.State)
    requires Sane(p) && BaseOk(others, base)
    ensures MovesLeft(p, base, s, 0) + MovesLeft(p, base, s, 1) <= 3
    ensures s.resting == map[] ==> MovesLeft(p, base, s, 0) + MovesLeft(p, base, s, 1) <= 2
  {
    OneLegQuotes(p, others, base, QuoterRun.Slot(0, Bid));
    OneLegQuotes(p, others, base, QuoterRun.Slot(0, Ask));
    assert Across(QuoterRun.Slot(0, Bid)) == QuoterRun.Slot(1, Bid);
    assert Across(QuoterRun.Slot(0, Ask)) == QuoterRun.Slot(1, Ask);
  }

  /** While the others' orders stand still on both legs, the four slots of a pair together send at most three
      orders, and from flat at most two, although each leg's limit comes from a book in which our own orders
      rest: with positive taker fees at most one leg can quote each side, so its limit never moves. */
  lemma {:induction false} OrdersOnThePair(c: QuoterRun.Config, p: Pair, others: Others, base: Base, s: QuoterRun.State,
                                           es: seq<QuoterRun.Event>)
    requires Sane(p) && BaseOk(others, base) && Within(p, base, s) && QuoterRun.Ok(s) && c.deadbandTicks == 0
    requires QuoterRun.Legal(c, s, es) && AllEvaluate(c, p, others, s, es)
    ensures Walking.Placements(c, 0, s, es) + Walking.Placements(c, 1, s, es) <= 3
    ensures s.resting == map[] ==> Walking.Placements(c, 0, s, es) + Walking.Placements(c, 1, s, es) <= 2
  {
    MovesOnThePair(p, others, base, s);
    OrdersOnALeg(c, p, others, base, s, es, 0);
    OrdersOnALeg(c, p, others, base, s, es, 1);
  }

  lemma OrdersOnALeg(c: QuoterRun.Config, p: Pair, others: Others, base: Base, s: QuoterRun.State,
                     es: seq<QuoterRun.Event>, leg: int)
    requires Sane(p) && BaseOk(others, base) && Within(p, base, s) && QuoterRun.Ok(s) && c.deadbandTicks == 0
    requires IsLeg(leg)
    ensures QuoterRun.Legal(c, s, es) && AllEvaluate(c, p, others, s, es) ==>
      Walking.Placements(c, leg, s, es) <= MovesLeft(p, base, s, leg)
  {
    if QuoterRun.Legal(c, s, es) && AllEvaluate(c, p, others, s, es) {
      LegMoves(p, base, s, leg);
      PairUndisturbed(c, p, others, base, s, es, leg);
      Walking.PlacementsUseUp(c, BaseLimits(p, base, leg), Comp(base, leg), leg, s, es, MovesLeft(p, base, s, leg));
    }
  }
}
