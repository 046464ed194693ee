/** Taker exits (scripts/unwind_analysis.py: exit_proceeds) and the walk of an ask ladder
    (src/arbbot/scan/scanner.py: walk_cost). */
module Exit {
  import opened Core
  import opened Books
  import opened Fees

  // ---------- walking a ladder ----------

  /** What a walk takes from each level until nothing remains: the levels after that are not visited. */
  function Takes(ladder: seq<Level>, size: real): seq<real> {
    if ladder == [] then []
    else
      var take := Min(size, ladder[0].size);
      if size - take == 0.0 then [take] else [take] + Takes(ladder[1..], size - take)
  }

  function Sum(xs: seq<real>): real {
    if xs == [] then 0.0 else xs[0] + Sum(xs[1..])
  }

  /** The value of selling (or buying) xs[i] at the price of level i. */
  function Value(ladder: seq<Level>, xs: seq<real>): real
    requires |xs| <= |ladder|
  {
    if xs == [] then 0.0 else Times(xs[0], ladder[0].price) + Value(ladder[1..], xs[1..])
  }

  function Depth(ladder: seq<Level>): real {
    if ladder == [] then 0.0 else ladder[0].size + Depth(ladder[1..])
  }

  ghost predicate Sized(ladder: seq<Level>) {
    forall l :: l in ladder ==> l.size >= 0.0
  }

  /** Best price first, for a seller. */
  ghost predicate Descending(ladder: seq<Level>) {
    forall i, j :: 0 <= i < j < |ladder| ==> ladder[i].price >= ladder[j].price
  }

  /** xs sells `size` in all within the depth of each level. */
  ghost predicate Allocates(ladder: seq<Level>, xs: seq<real>, size: real) {
    |xs| <= |ladder| && Sum(xs) == size && forall i :: 0 <= i < |xs| ==> 0.0 <= xs[i] <= ladder[i].size
  }

  lemma TakesFit(ladder: seq<Level>, size: real)
    ensures |Takes(ladder, size)| <= |ladder|
  {}

  /** The walk in place of its recursion: what is left and what was gained. */
  method Walk(ladder: seq<Level>, size: real) returns (remaining: real, proceeds: real)
    ensures |Takes(ladder, size)| <= |ladder|
    ensures remaining == size - Sum(Takes(ladder, size)) && proceeds == Value(ladder, Takes(ladder, size))
  {
    remaining, proceeds := size, 0.0;
    TakesFit(ladder, size);
    for i := 0 to |ladder|
      invariant |Takes(ladder[i..], remaining)| <= |ladder| - i
      invariant size - Sum(Takes(ladder, size)) == remaining - Sum(Takes(ladder[i..], remaining))
      invariant Value(ladder, Takes(ladder, size)) == proceeds + Value(ladder[i..], Takes(ladder[i..], remaining))
    {
      var rest := ladder[i..];
      assert rest[0] == ladder[i] && rest[1..] == ladder[i + 1..];
      var take := Min(remaining, ladder[i].size);
      var takes := Takes(rest, remaining);
      TakesFit(ladder[i + 1..], remaining - take);
      proceeds := proceeds + Times(take, ladder[i].price);
      remaining := remaining - take;
      if remaining == 0.0 {
        assert takes == [take] && takes[1..] == [];
        return;
      }
      assert takes[1..] == Takes(ladder[i + 1..], remaining);
    }
  }

  /** The greedy walk of a positive size sells all of it exactly when the depth is there, and otherwise the
      whole depth; it never overdraws a level. */
  lemma {:induction false} GreedySells(ladder: seq<Level>, size: real)
    requires Sized(ladder) && size > 0.0
    ensures var xs := Takes(ladder, size);
      && Allocates(ladder, xs, Min(size, Depth(ladder)))
      && (Sum(xs) < size <==> Depth(ladder) < size)
      && (size <= Depth(ladder) ==> |xs| > 0)
  {
    DepthPositive(ladder);
    if ladder != [] {
      var take := Min(size, ladder[0].size);
      assert ladder[0] in ladder;
      forall l | l in ladder[1..] ensures l.size >= 0.0 { assert l in ladder; }
      DepthPositive(ladder[1..]);
      if size - take == 0.0 {
        assert Takes(ladder, size) == [take] && Sum([take]) == take + Sum([take][1..]);
      } else {
        GreedySells(ladder[1..], size - take);
        assert Takes(ladder, size)[1..] == Takes(ladder[1..], size - take);
      }
    }
  }

  lemma {:induction false} DepthPositive(ladder: seq<Level>)
    requires Sized(ladder)
    ensures Depth(ladder) >= 0.0
  {
    if ladder != [] {
      assert ladder[0] in ladder;
      forall l | l in ladder[1..] ensures l.size >= 0.0 { assert l in ladder; }
      DepthPositive(ladder[1..]);
    }
  }

  /** What selling a size best price first brings in. */
  function Gross(ladder: seq<Level>, size: real): real {
    if ladder == [] then 0.0
    else
      var take := Min(size, ladder[0].size);
      Times(take, ladder[0].price) + Gross(ladder[1..], size - take)
  }

  lemma {:induction false} GrossOfNothing(ladder: seq<Level>)
    requires Sized(ladder)
    ensures Gross(ladder, 0.0) == 0.0
  {
    if ladder != [] {
      assert ladder[0] in ladder;
      forall l | l in ladder[1..] ensures l.size >= 0.0 { assert l in ladder; }
      GrossOfNothing(ladder[1..]);
      TimesZero(ladder[0].price);
    }
  }

  lemma {:induction false} WalkGross(ladder: seq<Level>, size: real)
    requires Sized(ladder) && size >= 0.0
    ensures |Takes(ladder, size)| <= |ladder| && Value(ladder, Takes(ladder, size)) == Gross(ladder, size)
  {
    if ladder != [] {
      var take, xs := Min(size, ladder[0].size), Takes(ladder, size);
      assert ladder[0] in ladder;
      forall l | l in ladder[1..] ensures l.size >= 0.0 { assert l in ladder; }
      if size - take == 0.0 {
        assert xs == [take] && xs[1..] == [];
        GrossOfNothing(ladder[1..]);
        assert Gross(ladder[1..], size - take) == 0.0;
      } else {
        WalkGross(ladder[1..], size - take);
        assert xs[1..] == Takes(ladder[1..], size - take);
      }
    }
  }

  lemma Tail(ladder: seq<Level>)
    requires ladder != [] && Sized(ladder) && Descending(ladder)
    ensures Sized(ladder[1..]) && Descending(ladder[1..]) && ladder[0].size >= 0.0
    ensures forall l :: l in ladder[1..] ==> l.price <= ladder[0].price
  {
    var t := ladder[1..];
    assert ladder[0] in ladder;
    forall l | l in t ensures l.size >= 0.0 && l.price <= ladder[0].price {
      assert l in ladder;
      var i :| 0 <= i < |t| && t[i] == l;
      assert ladder[i + 1] == l;
    }
    forall i, j | 0 <= i < j < |t| ensures t[i].price >= t[j].price {
      assert t[i] == ladder[i + 1] && t[j] == ladder[j + 1];
    }
  }

  /** Selling more adds at most the best price a contract. */
  lemma {:induction false} MoreSellsBelow(ladder: seq<Level>, size: real, more: real, p: real)
    requires Sized(ladder) && Descending(ladder) && size >= 0.0 && more >= 0.0 && size + more <= Depth(ladder)
    requires forall l :: l in ladder ==> l.price <= p
    ensures Gross(ladder, size + more) <= Gross(ladder, size) + Times(more, p)
  {
    if ladder == [] {
      assert more == 0.0;
      TimesZero(p);
    } else {
      Tail(ladder);
      var z, q := ladder[0].size, ladder[0].price;
      assert ladder[0] in ladder;
      var a, b := Min(size, z), Min(size + more, z);
      forall l | l in ladder[1..] ensures l.price <= p { assert l in ladder; }
      DepthPositive(ladder[1..]);
      MoreSellsBelow(ladder[1..], size - a, more - (b - a), p);
      assert size - a + (more - (b - a)) == size + more - b;
      TimesGrows(b - a, q, p);
      TimesSubtracts(b, a, q);
      TimesSubtracts(more, b - a, p);
    }
  }

  /** The greedy walk is optimal: no other way of selling as much within the depth brings in more. */
  lemma {:induction false} GreedyIsBest(ladder: seq<Level>, xs: seq<real>, size: real)
    requires Sized(ladder) && Descending(ladder) && Allocates(ladder, xs, size)
    ensures 0.0 <= size <= Depth(ladder) && Value(ladder, xs) <= Gross(ladder, size)
  {
    DepthPositive(ladder);
    if xs == [] {
      GrossOfNothing(ladder);
    } else {
      Tail(ladder);
      AllocatesTail(ladder, xs, size);
      GreedyIsBest(ladder[1..], xs[1..], size - xs[0]);
      FirstLevel(ladder, xs[0], size, Value(ladder[1..], xs[1..]));
    }
  }

  lemma AllocatesTail(ladder: seq<Level>, xs: seq<real>, size: real)
    requires Allocates(ladder, xs, size) && xs != []
    ensures Allocates(ladder[1..], xs[1..], size - xs[0]) && 0.0 <= xs[0] <= ladder[0].size
  {
    forall i | 0 <= i < |xs[1..]| ensures 0.0 <= xs[1..][i] <= ladder[1..][i].size {
      assert xs[1..][i] == xs[i + 1] && ladder[1..][i] == ladder[i + 1];
    }
  }

  /** Selling x at the first level and the rest as well as possible is no better than the walk. */
  lemma FirstLevel(ladder: seq<Level>, x: real, size: real, rest: real)
    requires ladder != [] && Sized(ladder) && Descending(ladder)
    requires 0.0 <= x <= ladder[0].size && 0.0 <= size - x <= Depth(ladder[1..]) && rest <= Gross(ladder[1..], size - x)
    ensures Times(x, ladder[0].price) + rest <= Gross(ladder, size)
  {
    Tail(ladder);
    var p, take := ladder[0].price, Min(size, ladder[0].size);
    MoreSellsBelow(ladder[1..], size - take, take - x, p);
    assert size - take + (take - x) == size - x;
    TimesSubtracts(take, x, p);
  }

  // ---------- the fee at the average price ----------

  /** How far the filled prices lie from p. */
  function Spread(ladder: seq<Level>, xs: seq<real>, p: real): real
    requires |xs| <= |ladder|
  {
    if xs == [] then 0.0
    else Times(xs[0], Times(p - ladder[0].price, p - ladder[0].price)) + Spread(ladder[1..], xs[1..], p)
  }

  /** The curve summed level by level. */
  function CurveSum(ladder: seq<Level>, xs: seq<real>): real
    requires |xs| <= |ladder|
  {
    if xs == [] then 0.0 else Times(xs[0], Curve(ladder[0].price)) + CurveSum(ladder[1..], xs[1..])
  }

  /** Spread in terms of size, gross and curve sum. */
  function Quadratic(s: real, v: real, c: real, p: real): real {
    Times(Times(p, p), s) - 2.0 * Times(p, v) + v - c
  }

  lemma Square(p: real, q: real)
    ensures Times(p - q, p - q) == Times(p, p) - 2.0 * Times(p, q) + Times(q, q)
  {
    TimesSubtracts(p, q, p - q);
    TimesSubtracts(p, q, p);
    TimesSubtracts(p, q, q);
    TimesSwaps(p, q, 1.0);
  }

  lemma CurveIs(q: real)
    ensures Curve(q) == q - Times(q, q)
  {
    TimesSubtracts(1.0, q, q);
    TimesZero(q);
  }

  lemma Doubles(x: real, y: real)
    ensures Times(x, 2.0 * y) == 2.0 * Times(x, y)
  {}

  lemma Term(x: real, q: real, p: real)
    ensures Times(x, Times(p - q, p - q)) ==
      Times(Times(p, p), x) - 2.0 * Times(p, Times(x, q)) + Times(x, q) - Times(x, Curve(q))
  {
    var (pp, pq, qq) := (Times(p, p), Times(p, q), Times(q, q));
    Square(p, q);
    CurveIs(q);
    TimesAdds(pp - 2.0 * pq, qq, x);
    TimesSubtracts(pp, 2.0 * pq, x);
    Doubles(x, pq);
    TimesSwaps(x, p, q);
    TimesSwaps(x, pp, 1.0);
    TimesSubtracts(q, qq, x);
  }

  lemma QuadraticStep(s: real, v: real, c: real, x: real, q: real, p: real)
    ensures Times(x, Times(p - q, p - q)) + Quadratic(s, v, c, p) ==
      Quadratic(x + s, Times(x, q) + v, Times(x, Curve(q)) + c, p)
  {
    Term(x, q, p);
    TimesAdds(x, s, Times(p, p));
    TimesAdds(Times(x, q), v, p);
  }

  lemma {:induction false} SpreadExpands(ladder: seq<Level>, xs: seq<real>, p: real)
    requires |xs| <= |ladder|
    ensures Spread(ladder, xs, p) == Quadratic(Sum(xs), Value(ladder, xs), CurveSum(ladder, xs), p)
  {
    if xs == [] {
      QuadraticOfNothing(p);
    } else {
      SpreadExpands(ladder[1..], xs[1..], p);
      QuadraticStep(Sum(xs[1..]), Value(ladder[1..], xs[1..]), CurveSum(ladder[1..], xs[1..]), xs[0],
                    ladder[0].price, p);
    }
  }

  lemma QuadraticOfNothing(p: real)
    ensures Quadratic(0.0, 0.0, 0.0, p) == 0.0
  {
    TimesZero(p);
    TimesZero(Times(p, p));
  }

  /** Every fill is at price p. */
  ghost predicate AllAt(ladder: seq<Level>, xs: seq<real>, p: real)
    requires |xs| <= |ladder|
  {
    forall i :: 0 <= i < |xs| && xs[i] > 0.0 ==> ladder[i].price == p
  }

  lemma AllAtStep(ladder: seq<Level>, xs: seq<real>, p: real)
    requires 0 < |xs| <= |ladder|
    ensures AllAt(ladder, xs, p) <==> (xs[0] > 0.0 ==> ladder[0].price == p) && AllAt(ladder[1..], xs[1..], p)
  {
    if AllAt(ladder, xs, p) {
      forall i | 0 <= i < |xs[1..]| && xs[1..][i] > 0.0 ensures ladder[1..][i].price == p {
        assert xs[i + 1] == xs[1..][i] && ladder[i + 1] == ladder[1..][i];
      }
    }
    if (xs[0] > 0.0 ==> ladder[0].price == p) && AllAt(ladder[1..], xs[1..], p) {
      forall i | 0 <= i < |xs| && xs[i] > 0.0 ensures ladder[i].price == p {
        if i > 0 { assert xs[i] == xs[1..][i - 1] && ladder[i] == ladder[1..][i - 1]; }
      }
    }
  }

  lemma {:induction false} SpreadNonNegative(ladder: seq<Level>, xs: seq<real>, p: real)
    requires |xs| <= |ladder| && forall x :: x in xs ==> x >= 0.0
    ensures Spread(ladder, xs, p) >= 0.0
    ensures Spread(ladder, xs, p) == 0.0 <==> AllAt(ladder, xs, p)
  {
    if xs != [] {
      assert xs[0] in xs;
      forall x | x in xs[1..] ensures x >= 0.0 { assert x in xs; }
      SpreadNonNegative(ladder[1..], xs[1..], p);
      TimesSquare(p - ladder[0].price);
      TimesSign(xs[0], Times(p - ladder[0].price, p - ladder[0].price));
      AllAtStep(ladder, xs, p);
    }
  }

  /** The curve at the average price exceeds the level-by-level sum by exactly the spread of the fills. */
  lemma {:induction false} CurveAtVwap(ladder: seq<Level>, xs: seq<real>, size: real)
    requires |xs| <= |ladder| && Sum(xs) == size > 0.0
    ensures var p := Value(ladder, xs) / size;
      Times(size, Curve(p)) == CurveSum(ladder, xs) + Spread(ladder, xs, p)
  {
    var v := Value(ladder, xs);
    TimesQuotient(v, size);
    SpreadExpands(ladder, xs, v / size);
    AtTheMean(v, CurveSum(ladder, xs), v / size, size);
  }

  lemma AtTheMean(v: real, c: real, p: real, size: real)
    requires Times(p, size) == v
    ensures Times(size, Curve(p)) == c + Quadratic(size, v, c, p)
  {
    CurveIs(p);
    TimesSubtracts(p, Times(p, p), size);
    TimesSwaps(size, p, p);
    TimesSwaps(size, p, 1.0);
    TimesSwaps(size, Times(p, p), 1.0);
  }

  /** Charging a taker fee k*P*(1-P)*size at the average price never undercharges the fees of the separate
      fills, and matches them exactly when k is zero or all fills are at one price. */
  lemma VwapFeeIsConservative(k: real, ladder: seq<Level>, xs: seq<real>, size: real)
    requires k >= 0.0 && size > 0.0 && Allocates(ladder, xs, size)
    ensures var p := Value(ladder, xs) / size;
      var (atVwap, byLevel) := (Times(k, Times(size, Curve(p))), Times(k, CurveSum(ladder, xs)));
      && atVwap >= byLevel
      && (atVwap == byLevel <==> k == 0.0 || AllAt(ladder, xs, p))
  {
    var p := Value(ladder, xs) / size;
    CurveAtVwap(ladder, xs, size);
    SpreadNonNegative(ladder, xs, p);
    TimesAdds(CurveSum(ladder, xs), Spread(ladder, xs, p), k);
    TimesSign(k, Spread(ladder, xs, p));
  }

  /** Fees ceiled to the cent fill by fill. */
  function CeiledSum(k: real, ladder: seq<Level>, xs: seq<real>): real
    requires |xs| <= |ladder|
  {
    if xs == [] then 0.0
    else CeilCents(Times(k, Times(xs[0], Curve(ladder[0].price)))) + CeiledSum(k, ladder[1..], xs[1..])
  }

  lemma {:induction false} CeilingAddsUp(k: real, ladder: seq<Level>, xs: seq<real>)
    requires |xs| <= |ladder|
    ensures CeiledSum(k, ladder, xs) <= Times(k, CurveSum(ladder, xs)) + |xs| as real * CENT
    ensures xs != [] ==> CeiledSum(k, ladder, xs) < Times(k, CurveSum(ladder, xs)) + |xs| as real * CENT
  {
    if xs == [] {
      TimesZero(k);
    } else {
      var (term, rest) := (Times(xs[0], Curve(ladder[0].price)), CurveSum(ladder[1..], xs[1..]));
      CeilingAddsUp(k, ladder[1..], xs[1..]);
      CeilCentsIsLeast(Times(k, term));
      TimesAdds(term, rest, k);
    }
  }

  /** On Kalshi the fee ceiled once at the average price falls short of the fees ceiled fill by fill by less
      than a cent a level. */
  lemma VwapShortfallIsSmall(k: real, ladder: seq<Level>, xs: seq<real>, size: real)
    requires k >= 0.0 && size > 0.0 && Allocates(ladder, xs, size)
    ensures CeilCents(Times(k, Times(size, Curve(Value(ladder, xs) / size)))) >
      CeiledSum(k, ladder, xs) - |xs| as real * CENT
  {
    VwapFeeIsConservative(k, ladder, xs, size);
    CeilingAddsUp(k, ladder, xs);
    CeilCentsIsLeast(Times(k, Times(size, Curve(Value(ladder, xs) / size))));
  }

  // ---------- leaving a basket ----------

  /** What a leg of a basket holds: YES or NO contracts of a market. */
  datatype Leg = Leg(venue: Fees.Venue, market: string, yes: bool)

  /** Venue-reported terms of a market. */
  datatype Terms = Terms(category: string, override: Option<real>)

  datatype World = World(books: map<(Fees.Venue, string), Book>, terms: map<(Fees.Venue, string), Terms>,
                         fees: Schedule)

  datatype ExitResult = Net(total: real) | NoExit | FeeRefused

  /** YES sells into the bids; NO sells into the asks at one minus their price. */
  function LadderOf(book: Book, yes: bool): seq<Level> {
    if yes then book.bids
    else seq(|book.asks|, i requires 0 <= i < |book.asks| => Level(1.0 - book.asks[i].price, book.asks[i].size))
  }

  function TermsOf(w: World, leg: Leg): Terms {
    if (leg.venue, leg.market) in w.terms then w.terms[(leg.venue, leg.market)] else Terms("default", None)
  }

  function LegNet(w: World, leg: Leg, size: real): ExitResult
    requires size > 0.0
  {
    if (leg.venue, leg.market) !in w.books then NoExit
    else
      var ladder := LadderOf(w.books[(leg.venue, leg.market)], leg.yes);
      var xs := Takes(ladder, size);
      TakesFit(ladder, size);
      if Sum(xs) < size then NoExit
      else
        var gross, t := Value(ladder, xs), TermsOf(w, leg);
        match LegFee(w.fees, leg.venue, Taker, gross / size, size, t.category, t.override)
        case Good(fee) => Net(gross - fee)
        case BadFill => FeeRefused
  }

  /** The legs are left one by one; the first that cannot be ends the attempt. */
  function BasketNet(w: World, basket: seq<Leg>, size: real): ExitResult
    requires size > 0.0
  {
    if basket == [] then Net(0.0)
    else
      match BasketNet(w, basket[..|basket| - 1], size)
      case Net(total) => (
        match LegNet(w, basket[|basket| - 1], size)
        case Net(more) => Net(total + more)
        case other => other)
      case other => other
  }

  lemma {:induction false} StopsAtPrefix(w: World, basket: seq<Leg>, i: nat, size: real)
    requires size > 0.0 && i <= |basket| && !BasketNet(w, basket[..i], size).Net?
    ensures BasketNet(w, basket, size) == BasketNet(w, basket[..i], size)
  {
    if i == |basket| {
      assert basket[..i] == basket;
    } else {
      assert basket[..|basket| - 1][..i] == basket[..i];
      StopsAtPrefix(w, basket[..|basket| - 1], i, size);
    }
  }

  method ExitProceeds(w: World, basket: seq<Leg>, size: real) returns (r: ExitResult)
    requires size > 0.0
    ensures r == BasketNet(w, basket, size)
  {
    var total := 0.0;
    for i := 0 to |basket|
      invariant BasketNet(w, basket[..i], size) == Net(total)
    {
      var leg := basket[i];
      assert basket[..i + 1][..i] == basket[..i];
      if (leg.venue, leg.market) !in w.books {
        StopsAtPrefix(w, basket, i + 1, size);
        return NoExit;
      }
      var ladder := LadderOf(w.books[(leg.venue, leg.market)], leg.yes);
      var remaining, proceeds := Walk(ladder, size);
      if remaining > 0.0 {
        StopsAtPrefix(w, basket, i + 1, size);
        return NoExit;
      }
      var t := TermsOf(w, leg);
      var fee := LegFee(w.fees, leg.venue, Taker, proceeds / size, size, t.category, t.override);
      if fee.BadFill? {
        StopsAtPrefix(w, basket, i + 1, size);
        return FeeRefused;
      }
      total := total + (proceeds - fee.value);
    }
    assert basket[..|basket|] == basket;
    return Net(total);
  }

  function LegNets(w: World, basket: seq<Leg>, size: real): seq<ExitResult>
    requires size > 0.0
  {
    if basket == [] then [] else LegNets(w, basket[..|basket| - 1], size) + [LegNet(w, basket[|basket| - 1], size)]
  }

  lemma {:induction false} SumAppends(xs: seq<real>, x: real)
    ensures Sum(xs + [x]) == Sum(xs) + x
  {
    if xs == [] {
      assert [] + [x] == [x] && [x][1..] == [];
    } else {
      assert (xs + [x])[1..] == xs[1..] + [x];
      SumAppends(xs[1..], x);
    }
  }

  /** The outcome of the legs is the sum of what they bring in, or why the first that cannot be left cannot. */
  ghost predicate Combines(r: ExitResult, legs: seq<ExitResult>, nets: seq<real>) {
    && |nets| == |legs|
    && (forall i :: 0 <= i < |legs| && legs[i].Net? ==> legs[i].total == nets[i])
    && (r.Net? <==> forall i :: 0 <= i < |legs| ==> legs[i].Net?)
    && (r.Net? ==> r.total == Sum(nets))
    && (!r.Net? ==> exists i :: 0 <= i < |legs| && r == legs[i] && forall j :: 0 <= j < i ==> legs[j].Net?)
  }

  lemma StillFails(r: ExitResult, legs: seq<ExitResult>, nets: seq<real>, leg: ExitResult, net: real)
    requires Combines(r, legs, nets) && !r.Net? && (leg.Net? ==> leg.total == net)
    ensures Combines(r, legs + [leg], nets + [net])
  {
    var i :| 0 <= i < |legs| && r == legs[i] && forall j :: 0 <= j < i ==> legs[j].Net?;
    assert (legs + [leg])[i] == legs[i];
  }

  lemma OneMoreLeg(total: real, legs: seq<ExitResult>, nets: seq<real>, leg: ExitResult, net: real)
    requires Combines(Net(total), legs, nets) && (leg.Net? ==> leg.total == net)
    ensures Combines(if leg.Net? then Net(total + net) else leg, legs + [leg], nets + [net])
  {
    SumAppends(nets, net);
    assert (legs + [leg])[|legs|] == leg;
  }

  /** So it is of a basket: what it brings in is the sum of what its legs do, it can be left exactly when every
      leg can, and otherwise the first leg that cannot decides why. */
  lemma {:induction false} BasketIsItsLegs(w: World, basket: seq<Leg>, size: real) returns (nets: seq<real>)
    requires size > 0.0
    ensures Combines(BasketNet(w, basket, size), LegNets(w, basket, size), nets)
  {
    if basket == [] {
      nets := [];
    } else {
      var n := |basket| - 1;
      nets := BasketIsItsLegs(w, basket[..n], size);
      var (r, leg) := (BasketNet(w, basket[..n], size), LegNet(w, basket[n], size));
      var legs := LegNets(w, basket[..n], size);
      var net := if leg.Net? then leg.total else 0.0;
      if r.Net? { OneMoreLeg(r.total, legs, nets, leg, net); } else { StillFails(r, legs, nets, leg, net); }
      nets := nets + [net];
    }
  }

  /** A book as BookBuilder keeps it: positive sizes, bids descending and asks ascending, prices in [0, 1]. */
  ghost predicate Tidy(book: Book) {
    && Strict(Bid, book.bids) && Strict(Ask, book.asks)
    && (forall l :: l in book.bids || l in book.asks ==> l.size > 0.0 && 0.0 <= l.price <= 1.0)
  }

  lemma LadderIsTidy(book: Book, yes: bool)
    requires Tidy(book)
    ensures var ladder := LadderOf(book, yes);
      Sized(ladder) && Descending(ladder) && forall l :: l in ladder ==> 0.0 <= l.price <= 1.0
  {
    var ladder, side := LadderOf(book, yes), if yes then book.bids else book.asks;
    forall l | l in ladder ensures l.size >= 0.0 && 0.0 <= l.price <= 1.0 {
      var i :| 0 <= i < |ladder| && ladder[i] == l;
      assert side[i] in side;
    }
    forall i, j | 0 <= i < j < |ladder| ensures ladder[i].price >= ladder[j].price {
      if yes { assert Better(Bid, book.bids[i].price, book.bids[j].price); }
      else { assert Better(Ask, book.asks[i].price, book.asks[j].price); }
    }
  }

  /** An average of prices in [0, 1] is in [0, 1]. */
  lemma {:induction false} ValueInRange(ladder: seq<Level>, xs: seq<real>)
    requires |xs| <= |ladder| && (forall l :: l in ladder ==> 0.0 <= l.price <= 1.0) && forall x :: x in xs ==> x >= 0.0
    ensures 0.0 <= Value(ladder, xs) <= Sum(xs)
  {
    if xs != [] {
      assert ladder[0] in ladder && xs[0] in xs;
      forall l | l in ladder[1..] ensures 0.0 <= l.price <= 1.0 { assert l in ladder; }
      forall x | x in xs[1..] ensures x >= 0.0 { assert x in xs; }
      ValueInRange(ladder[1..], xs[1..]);
      TimesSign(xs[0], ladder[0].price);
      TimesGrows(xs[0], ladder[0].price, 1.0);
      TimesZero(xs[0]);
    }
  }

  lemma QuotientInRange(v: real, size: real)
    requires size > 0.0 && 0.0 <= v <= size
    ensures 0.0 <= v / size <= 1.0
  {}

  /** What is certain of leaving one leg of a tidy book. It fails exactly when the depth is missing. Otherwise
      it is valued at the best gross any way of selling `size` brings in, less a fee which, where the venue
      charges k*P*(1-P) a contract, is no less than its fees on the separate fills (less than a cent a level
      short of them on Kalshi, which rounds each up). */
  lemma LegNetIsConservative(w: World, leg: Leg, size: real, xs: seq<real>)
    requires size > 0.0 && (leg.venue, leg.market) in w.books && Tidy(w.books[(leg.venue, leg.market)])
    ensures var ladder := LadderOf(w.books[(leg.venue, leg.market)], leg.yes);
      var (r, greedy) := (LegNet(w, leg, size), Takes(ladder, size));
      && (r.NoExit? <==> Depth(ladder) < size) && !r.FeeRefused?
      && (r.Net? && Allocates(ladder, xs, size) ==>
           |greedy| <= |ladder| && Allocates(ladder, greedy, size) && Value(ladder, xs) <= Value(ladder, greedy))
    ensures var ladder := LadderOf(w.books[(leg.venue, leg.market)], leg.yes);
      var (r, greedy, t) := (LegNet(w, leg, size), Takes(ladder, size), TermsOf(w, leg));
      var k := TakerCoefficient(w.fees, leg.venue, t.category, t.override);
      r.Net? && k >= 0.0 && !(leg.venue.Polymarket? && w.fees.usMode && t.override.None?) ==>
        && |greedy| <= |ladder|
        && if leg.venue.Kalshi?
           then r.total < Value(ladder, greedy) - CeiledSum(k, ladder, greedy) + |greedy| as real * CENT
           else r.total <= Value(ladder, greedy) - Times(k, CurveSum(ladder, greedy))
  {
    var book := w.books[(leg.venue, leg.market)];
    var ladder := LadderOf(book, leg.yes);
    var greedy, t := Takes(ladder, size), TermsOf(w, leg);
    LadderIsTidy(book, leg.yes);
    GreedySells(ladder, size);
    WalkGross(ladder, size);
    if Allocates(ladder, xs, size) { GreedyIsBest(ladder, xs, size); }
    if size <= Depth(ladder) {
      assert Allocates(ladder, greedy, size);
      forall x | x in greedy ensures x >= 0.0 {
        var i :| 0 <= i < |greedy| && greedy[i] == x;
      }
      ValueInRange(ladder, greedy);
      QuotientInRange(Value(ladder, greedy), size);
      var k := TakerCoefficient(w.fees, leg.venue, t.category, t.override);
      if k >= 0.0 && !(leg.venue.Polymarket? && w.fees.usMode && t.override.None?) {
        TakerFeeIsCurve(w.fees, leg.venue, Value(ladder, greedy) / size, size, t.category, t.override);
        VwapFeeIsConservative(k, ladder, greedy, size);
        VwapShortfallIsSmall(k, ladder, greedy, size);
      }
    }
  }

  /** A basket of tidy books cannot be left exactly when some leg's book is missing or too shallow. */
  lemma {:induction false} ExitFailsExactly(w: World, basket: seq<Leg>, size: real)
    requires size > 0.0 && forall key :: key in w.books ==> Tidy(w.books[key])
    ensures !BasketNet(w, basket, size).FeeRefused?
    ensures BasketNet(w, basket, size).NoExit? <==>
      exists leg :: leg in basket && ((leg.venue, leg.market) !in w.books
                                      || Depth(LadderOf(w.books[(leg.venue, leg.market)], leg.yes)) < size)
  {
    if basket != [] {
      var init, last := basket[..|basket| - 1], basket[|basket| - 1];
      assert basket == init + [last];
      ExitFailsExactly(w, init, size);
      if (last.venue, last.market) in w.books { LegNetIsConservative(w, last, size, []); }
    }
  }

  // ---------- buying ----------

  /** walk_cost: the cost of the cheapest `size`, or none when the ladder is too shallow. Nothing can be
      bought from an empty ladder, not even nothing. */
  function CostOf(ladder: seq<Level>, size: real): Option<real> {
    if ladder == [] then None
    else
      var take := Min(size, ladder[0].size);
      if size - take == 0.0 then Some(Times(take, ladder[0].price))
      else
        match CostOf(ladder[1..], size - take)
        case None => None
        case Some(rest) => Some(Times(take, ladder[0].price) + rest)
  }

  method WalkCost(ladder: seq<Level>, size: real) returns (cost: Option<real>)
    ensures cost == CostOf(ladder, size)
  {
    var remaining, spent := size, 0.0;
    for i := 0 to |ladder|
      invariant CostOf(ladder, size) ==
        match CostOf(ladder[i..], remaining) case None => None case Some(rest) => Some(spent + rest)
    {
      assert ladder[i..][0] == ladder[i] && ladder[i..][1..] == ladder[i + 1..];
      var take := Min(remaining, ladder[i].size);
      spent := spent + Times(take, ladder[i].price);
      remaining := remaining - take;
      if remaining == 0.0 { return Some(spent); }
    }
    return None;
  }

  /** Buying is selling at the negated prices. */
  function Negated(ladder: seq<Level>): seq<Level> {
    seq(|ladder|, i requires 0 <= i < |ladder| => Level(-ladder[i].price, ladder[i].size))
  }

  lemma {:induction false} CostIsNegatedGross(ladder: seq<Level>, size: real)
    requires Sized(ladder) && size > 0.0
    ensures CostOf(ladder, size) == if Depth(ladder) < size then None else Some(-Gross(Negated(ladder), size))
    ensures Depth(Negated(ladder)) == Depth(ladder)
  {
    DepthPositive(ladder);
    if ladder != [] {
      var take, rest := Min(size, ladder[0].size), ladder[1..];
      assert ladder[0] in ladder;
      forall l | l in rest ensures l.size >= 0.0 { assert l in ladder; }
      DepthPositive(rest);
      assert Negated(ladder)[1..] == Negated(rest);
      TimesNegates(take, ladder[0].price);
      if size - take == 0.0 {
        NegatedIsSized(rest);
        GrossOfNothing(Negated(rest));
        DepthNegated(rest);
        assert Gross(Negated(rest), size - take) == 0.0;
      } else {
        CostIsNegatedGross(rest, size - take);
      }
    }
  }

  lemma NegatedIsSized(ladder: seq<Level>)
    requires Sized(ladder)
    ensures Sized(Negated(ladder))
  {
    var n := Negated(ladder);
    forall l | l in n ensures l.size >= 0.0 {
      var i :| 0 <= i < |n| && n[i] == l;
      assert ladder[i] in ladder;
    }
  }

  lemma {:induction false} DepthNegated(ladder: seq<Level>)
    ensures Depth(Negated(ladder)) == Depth(ladder)
  {
    if ladder != [] {
      assert Negated(ladder)[1..] == Negated(ladder[1..]);
      DepthNegated(ladder[1..]);
    }
  }

  lemma {:induction false} ValueNegated(ladder: seq<Level>, xs: seq<real>)
    requires |xs| <= |ladder|
    ensures Value(Negated(ladder), xs) == -Value(ladder, xs)
  {
    if xs != [] {
      assert Negated(ladder)[1..] == Negated(ladder[1..]);
      TimesNegates(xs[0], ladder[0].price);
      ValueNegated(ladder[1..], xs[1..]);
    }
  }

  /** The scanner's ladder cost is the least at which `size` can be bought, and it fails exactly when the
      depth is missing. */
  lemma BuyingIsCheapest(ladder: seq<Level>, size: real, xs: seq<real>)
    requires Sized(ladder) && size > 0.0
    requires forall i, j :: 0 <= i < j < |ladder| ==> ladder[i].price <= ladder[j].price
    ensures CostOf(ladder, size).None? <==> Depth(ladder) < size
    ensures CostOf(ladder, size).Some? ==>
      && (Allocates(ladder, xs, size) ==> CostOf(ladder, size).value <= Value(ladder, xs))
      && exists ys :: Allocates(ladder, ys, size) && CostOf(ladder, size).value == Value(ladder, ys)
  {
    var n := Negated(ladder);
    CostIsNegatedGross(ladder, size);
    NegatedIsSized(ladder);
    if Allocates(ladder, xs, size) {
      ValueNegated(ladder, xs);
      GreedyIsBest(n, xs, size);
    }
    GreedySells(n, size);
    WalkGross(n, size);
    if size <= Depth(ladder) {
      var ys := Takes(n, size);
      ValueNegated(ladder, ys);
      assert Allocates(ladder, ys, size);
    }
  }

  // ---------- what leaving a leg brings in ----------

  /** Selling NO into the asks at one minus their price brings in what buying YES there would save of a dollar
      a contract. */
  lemma {:induction false} ComplementGross(book: Book, asks: seq<Level>, size: real)
    requires size > 0.0 && Sized(asks)
    ensures var ladder := LadderOf(book.(asks := asks), false);
      && (Sum(Takes(ladder, size)) >= size <==> CostOf(asks, size).Some?)
      && (CostOf(asks, size).Some? ==>
           && |Takes(ladder, size)| <= |ladder|
           && Value(ladder, Takes(ladder, size)) == size - CostOf(asks, size).value)
  {
    var ladder := LadderOf(book.(asks := asks), false);
    TakesFit(ladder, size);
    if asks != [] {
      assert asks[0] in asks;
      var (take, rest) := (Min(size, asks[0].size), asks[1..]);
      forall l | l in rest ensures l.size >= 0.0 { assert l in asks; }
      TimesSubtracts(1.0, asks[0].price, take);
      TimesZero(take);
      assert ladder[1..] == LadderOf(book.(asks := rest), false);
      if size - take == 0.0 {
        assert Takes(ladder, size) == [take] && Sum([take][1..]) == 0.0 && Value(ladder[1..], [take][1..]) == 0.0;
      } else {
        ComplementGross(book, rest, size - take);
        assert Takes(ladder, size)[1..] == Takes(ladder[1..], size - take);
      }
    }
  }

  /** The fee by which the net of a leg falls short of its gross, in the terms the venue reports for the market:
      Kalshi's own coefficient, rounded up to the cent; on the others the reported coefficient if there is one, and
      otherwise the schedule's for the venue or category; or a tenth of a percent of the premium in the US mode. */
  ghost predicate Charged(w: World, leg: Leg, size: real, gross: real, fee: real)
    requires size > 0.0
  {
    var (key, base) := ((leg.venue, leg.market), Times(size, Curve(gross / size)));
    if leg.venue.Kalshi? then fee == CeilCents(Times(w.fees.kalshiTaker, base))
    else if key in w.terms && w.terms[key].override.Some? then fee == Times(w.terms[key].override.value, base)
    else if leg.venue.PolymarketUs? then fee == Times(w.fees.pmUsTaker, base)
    else if w.fees.usMode then fee == Max(0.001 * gross, 0.001)
    else
      var category := if key in w.terms then w.terms[key].category else "default";
      fee == Times(if category in w.fees.category then w.fees.category[category] else w.fees.categoryDefault, base)
  }

  /** Exactly what leaving a leg of a tidy book brings in: YES sells into the bids for the best gross, NO brings in
      a dollar a contract less the least cost of as much YES, each less one taker fee on the average price. */
  lemma LegNetExactly(w: World, leg: Leg, size: real)
    requires size > 0.0 && (leg.venue, leg.market) in w.books && Tidy(w.books[(leg.venue, leg.market)])
    ensures var (book, r) := (w.books[(leg.venue, leg.market)], LegNet(w, leg, size));
      if leg.yes then
        && (r.Net? <==> size <= Depth(book.bids))
        && (r.Net? ==>
             && |Takes(book.bids, size)| <= |book.bids|
             && var gross := Value(book.bids, Takes(book.bids, size)); Charged(w, leg, size, gross, gross - r.total))
      else
        && (r.Net? <==> CostOf(book.asks, size).Some?)
        && (r.Net? ==>
             var gross := size - CostOf(book.asks, size).value; Charged(w, leg, size, gross, gross - r.total))
  {
    var book := w.books[(leg.venue, leg.market)];
    var ladder := LadderOf(book, leg.yes);
    LegNetIsConservative(w, leg, size, []);
    LadderIsTidy(book, leg.yes);
    GreedySells(ladder, size);
    TakesFit(ladder, size);
    if !leg.yes {
      forall l | l in book.asks ensures l.size >= 0.0 {}
      ComplementGross(book, book.asks, size);
    }
    TimesQuotient(Value(ladder, Takes(ladder, size)), size);
  }
}
