/** Fee curves (src/arbbot/fees/curves.py), in dollars over exact reals. */
module Fees {
  import opened Core

  datatype Venue = Kalshi | Polymarket | PolymarketUs
  datatype Role = Maker | Taker

  datatype Outcome<T> = Good(value: T) | BadFill

  const CENT := 0.01
  const MILL := 0.001

  function Ceil(x: real): int {
    -(-x).Floor
  }

  /** Rounds up to a whole cent. */
  function CeilCents(x: real): real {
    Ceil(x * 100.0) as real / 100.0
  }

  lemma CeilCentsIsLeast(x: real)
    ensures x <= CeilCents(x) < x + CENT
    ensures x == 0.0 ==> CeilCents(x) == 0.0
  {}

  lemma {:induction false} CeilCentsFits(x: real, n: int)
    requires x <= n as real / 100.0
    ensures CeilCents(x) <= n as real / 100.0
  {
    assert Ceil(x * 100.0) <= n;
  }

  /** The variance term of a binary contract. */
  function Curve(p: real): real {
    Times(p, 1.0 - p)
  }

  datatype Schedule = Schedule(kalshiTaker: real, kalshiMaker: real, usMode: bool, category: map<string, real>,
                               categoryDefault: real, pmUsTaker: real)

  function Coefficient(s: Schedule, category: string): real {
    if category in s.category then s.category[category] else s.categoryDefault
  }

  function Fee(s: Schedule, venue: Venue, role: Role, price: real, size: real, category: string): Outcome<real> {
    if size < 0.0 || !(0.0 <= price <= 1.0) then BadFill
    else
      match venue
      case Kalshi =>
        var k := if role.Taker? then s.kalshiTaker else s.kalshiMaker;
        Good(CeilCents(Times(k, Times(size, Curve(price)))))
      case PolymarketUs => Good(if role.Maker? then 0.0 else Times(s.pmUsTaker, Times(size, Curve(price))))
      case Polymarket =>
        if role.Maker? then Good(0.0)
        else if s.usMode then Good(if size == 0.0 then 0.0 else Max(0.001 * Times(price, size), MILL))
        else Good(Times(Coefficient(s, category), Times(size, Curve(price))))
  }

  /** A coefficient reported by a Polymarket venue beats the schedule, and skips its range check. */
  function LegFee(s: Schedule, venue: Venue, role: Role, price: real, size: real, category: string,
                  override: Option<real>): Outcome<real>
  {
    if !venue.Kalshi? && role.Taker? && override.Some? then Good(Times(override.value, Times(size, Curve(price))))
    else Fee(s, venue, role, price, size, category)
  }

  /** Makers pay on Kalshi only, k*P*(1-P)*size rounded up to the cent; a reported coefficient is no matter of theirs.
      The fee is refused exactly for a price or size out of range. */
  lemma MakersPayOnKalshi(s: Schedule, venue: Venue, price: real, size: real, category: string, override: Option<real>)
    ensures var fee := LegFee(s, venue, Maker, price, size, category, override);
      && (fee.BadFill? <==> size < 0.0 || price < 0.0 || price > 1.0)
      && (fee.Good? ==>
           fee.value == if venue.Kalshi? then CeilCents(Times(s.kalshiMaker, Times(size, Curve(price)))) else 0.0)
  {}

  /** In the US mode of Polymarket a taker pays a tenth of a percent of the premium, at least a tenth of a cent, and
      nothing for nothing, unless the venue reports a coefficient. */
  lemma UsModeFee(s: Schedule, price: real, size: real, category: string)
    requires s.usMode && size >= 0.0 && 0.0 <= price <= 1.0
    ensures var fee := LegFee(s, Polymarket, Taker, price, size, category, None);
      && fee.Good? && (fee.value == 0.0 <==> size == 0.0)
      && (size > 0.0 ==> fee.value >= 0.001 && 1000.0 * fee.value >= Times(price, size)
                         && (fee.value == 0.001 || 1000.0 * fee.value == Times(price, size)))
  {}

  /** The coefficient k of a taker fee of the form k*P*(1-P)*size, before any rounding. */
  function TakerCoefficient(s: Schedule, venue: Venue, category: string, override: Option<real>): real {
    match venue
    case Kalshi => s.kalshiTaker
    case PolymarketUs => if override.Some? then override.value else s.pmUsTaker
    case Polymarket => if override.Some? then override.value else Coefficient(s, category)
  }

  /** Outside the premium-based US mode, a taker fee is k*P*(1-P)*size, rounded up to the cent on Kalshi;
      it is refused exactly for a price or size out of range that no venue coefficient overrides. */
  lemma TakerFeeIsCurve(s: Schedule, venue: Venue, price: real, size: real, category: string, override: Option<real>)
    requires !(venue.Polymarket? && s.usMode && override.None?)
    ensures var exact := Times(TakerCoefficient(s, venue, category, override), Times(size, Curve(price)));
      var fee := LegFee(s, venue, Taker, price, size, category, override);
      && (fee.BadFill? <==> (venue.Kalshi? || override.None?) && (size < 0.0 || price < 0.0 || price > 1.0))
      && (fee.Good? ==> fee.value == if venue.Kalshi? then CeilCents(exact) else exact)
  {}

  /** The curve is symmetric and peaks at even odds, nowhere else. */
  lemma CurvePeaks(p: real)
    ensures Curve(p) == Curve(1.0 - p) && Curve(p) <= 0.25
    ensures Curve(p) == 0.25 <==> p == 0.5
  {
    TimesSwaps(p, 1.0 - p, 1.0);
    TimesSquare(p - 0.5);
    TimesSubtracts(p, 0.5, p - 0.5);
    TimesSubtracts(p, 0.5, p);
    TimesSubtracts(p, 0.5, 0.5);
    TimesSubtracts(1.0, p, p);
    TimesZero(p);
    assert Times(0.5, p) == 0.5 * p && Times(p, 0.5) == 0.5 * p && Times(0.5, 0.5) == 0.25;
    assert 1.0 - (1.0 - p) == p;
  }

  /** The documented peaks: whatever the price, a taker fee before rounding is at most a quarter of k a
      contract, and that much only at 50 cents: a dollar for a hundred contracts at 4 percent. */
  lemma TakerFeePeaks(k: real, size: real, p: real)
    requires k > 0.0 && size > 0.0
    ensures Times(k, Times(size, Curve(p))) <= k * size / 4.0
    ensures Times(k, Times(size, Curve(p))) == k * size / 4.0 <==> p == 0.5
    ensures k == 0.04 && size == 100.0 && p == 0.5 ==> Times(k, Times(size, Curve(p))) == 1.0
  {
    CurvePeaks(p);
    var gap := 0.25 - Curve(p);
    TimesSubtracts(0.25, Curve(p), size);
    TimesSubtracts(Times(size, 0.25), Times(size, Curve(p)), k);
    TimesSign(size, gap);
    TimesSign(k, Times(size, gap));
    QuarterOf(k, size);
  }

  lemma QuarterOf(k: real, size: real)
    ensures Times(k, Times(size, 0.25)) == k * size / 4.0
  {}
}
