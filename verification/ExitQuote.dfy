/** Passive exits (src/arbbot/exec/main.py: _exit_refresh): which basket is worked, what counts as
    competition, and the price of the resting ask. */
module ExitQuote {
  import opened Core
  import opened Books
  import opened Fees

  // ---------- which basket ----------

  /** An open basket; eligible means flagged by the marks and of a quoted relationship, valid means of the
      standard direction with a whole contract to sell. */
  datatype Candidate = Candidate(rel: string, ts: real, eligible: bool, valid: bool)

  predicate Usable(b: Candidate, rel: string) {
    b.rel == rel && b.eligible && b.valid
  }

  predicate ByAge(cs: seq<Candidate>) {
    forall i, j :: 0 <= i < j < |cs| ==> cs[i].ts <= cs[j].ts
  }

  /** c is the right basket of its relationship among cs. */
  ghost predicate RightChoice(cs: seq<Candidate>, current: map<string, real>, c: Candidate) {
    && c in cs && Usable(c, c.rel)
    && if c.rel in current && exists b :: b in cs && Usable(b, c.rel) && b.ts == current[c.rel]
       then c.ts == current[c.rel]
       else forall b :: b in cs && Usable(b, c.rel) ==> c.ts <= b.ts
  }

  lemma ChoiceKept(cs: seq<Candidate>, current: map<string, real>, c: Candidate, b: Candidate)
    requires RightChoice(cs, current, c)
    requires forall x :: x in cs ==> x.ts <= b.ts
    requires Usable(b, c.rel) ==> !(c.rel in current && b.ts == current[c.rel])
    ensures RightChoice(cs + [b], current, c)
  {
    assert forall x :: x in cs + [b] <==> x in cs || x == b;
    if exists x :: x in cs + [b] && Usable(x, c.rel) && c.rel in current && x.ts == current[c.rel] {
      var x :| x in cs + [b] && Usable(x, c.rel) && x.ts == current[c.rel];
      assert x in cs;
    }
    assert c.ts <= b.ts;
  }

  ghost predicate HasUsable(cs: seq<Candidate>, rel: string) {
    exists b :: b in cs && Usable(b, rel)
  }

  /** want holds the right basket of each relationship that has a usable one. */
  ghost predicate RightChoices(cs: seq<Candidate>, current: map<string, real>, want: map<string, Candidate>) {
    && (forall rel :: rel in want <==> HasUsable(cs, rel))
    && (forall rel :: rel in want ==> want[rel].rel == rel && RightChoice(cs, current, want[rel]))
  }

  /** The next, younger basket takes its relationship's place when that is free or the basket is current. */
  predicate Takes(want: map<string, Candidate>, current: map<string, real>, b: Candidate) {
    b.eligible && !(b.rel in want && !(b.rel in current && b.ts == current[b.rel])) && b.valid
  }

  lemma HasUsableAppend(cs: seq<Candidate>, b: Candidate, rel: string)
    ensures HasUsable(cs + [b], rel) <==> HasUsable(cs, rel) || Usable(b, rel)
  {
    if HasUsable(cs, rel) {
      var x :| x in cs && Usable(x, rel);
      assert x in cs + [b];
    }
    assert b in cs + [b];
    if HasUsable(cs + [b], rel) {
      var x :| x in cs + [b] && Usable(x, rel);
      assert x in cs || x == b;
    }
  }

  lemma TakenIsRight(cs: seq<Candidate>, current: map<string, real>, want: map<string, Candidate>, b: Candidate)
    requires RightChoices(cs, current, want) && Takes(want, current, b)
    ensures RightChoice(cs + [b], current, b)
  {
    assert b in cs + [b];
    forall x | x in cs + [b] && Usable(x, b.rel) ensures x == b || b.rel in want {
      if x != b {
        assert x in cs;
        assert HasUsable(cs, b.rel);
      }
    }
  }

  lemma ChooseStep(cs: seq<Candidate>, current: map<string, real>, want: map<string, Candidate>, b: Candidate)
    requires RightChoices(cs, current, want) && forall x :: x in cs ==> x.ts <= b.ts
    ensures RightChoices(cs + [b], current, if Takes(want, current, b) then want[b.rel := b] else want)
  {
    var next := if Takes(want, current, b) then want[b.rel := b] else want;
    forall rel ensures rel in next <==> HasUsable(cs + [b], rel) { HasUsableAppend(cs, b, rel); }
    forall rel | rel in next ensures next[rel].rel == rel && RightChoice(cs + [b], current, next[rel]) {
      if Takes(want, current, b) && rel == b.rel {
        TakenIsRight(cs, current, want, b);
      } else {
        assert Usable(b, rel) ==> !(rel in current && b.ts == current[rel]);
        ChoiceKept(cs, current, want[rel], b);
      }
    }
  }

  /** The basket being worked while it stays usable, otherwise the oldest usable one; none exactly when no
      basket of the relationship is usable. current holds the timestamps of the baskets being worked. */
  method ChooseBaskets(cs: seq<Candidate>, current: map<string, real>) returns (want: map<string, Candidate>)
    requires ByAge(cs)
    ensures forall rel :: rel in want <==> exists b :: b in cs && Usable(b, rel)
    ensures forall rel :: rel in want ==> want[rel].rel == rel && RightChoice(cs, current, want[rel])
  {
    want := map[];
    for i := 0 to |cs|
      invariant RightChoices(cs[..i], current, want)
    {
      var b := cs[i];
      assert cs[..i + 1] == cs[..i] + [b];
      ChooseStep(cs[..i], current, want, b);
      if !b.eligible { continue; }
      if b.rel in want && !(b.rel in current && b.ts == current[b.rel]) { continue; }
      if !b.valid { continue; }
      want := want[b.rel := b];
    }
    assert cs[..|cs|] == cs;
    assert forall rel :: HasUsable(cs, rel) <==> exists b :: b in cs && Usable(b, rel);
  }

  // ---------- what counts as competition ----------

  function Ours(ours: map<real, real>, p: real): real {
    if p in ours then ours[p] else 0.0
  }

  /** Depth at a level that is not ours. */
  function Foreign(l: Level, ours: map<real, real>): real {
    Max(l.size - Ours(ours, l.price), 0.0)
  }

  function ForeignDepth(asks: seq<Level>, ours: map<real, real>): real {
    if asks == [] then 0.0
    else ForeignDepth(asks[..|asks| - 1], ours) + Foreign(asks[|asks| - 1], ours)
  }

  /** The first ask by which at least `need` contracts of others are on offer. */
  method CompetingAsk(asks: seq<Level>, ours: map<real, real>, need: real) returns (comp: Option<real>, at: nat)
    ensures comp.None? ==> forall i :: 0 < i <= |asks| ==> ForeignDepth(asks[..i], ours) < need
    ensures comp.Some? ==> at < |asks| && comp.value == asks[at].price && ForeignDepth(asks[..at + 1], ours) >= need
    ensures comp.Some? ==> forall i :: 0 < i <= at ==> ForeignDepth(asks[..i], ours) < need
    ensures comp == Competing(asks, ours, need)
  {
    var cum := 0.0;
    for i := 0 to |asks|
      invariant cum == ForeignDepth(asks[..i], ours)
      invariant forall j :: 0 < j <= i ==> ForeignDepth(asks[..j], ours) < need
      invariant Competing(asks[..i], ours, need) == None
    {
      assert asks[..i + 1][..i] == asks[..i];
      cum := cum + Foreign(asks[i], ours);
      if cum >= need {
        CompetingPrefix(asks, i + 1, ours, need);
        return Some(asks[i].price), i;
      }
    }
    assert asks[..|asks|] == asks;
    return None, 0;
  }

  function Competing(asks: seq<Level>, ours: map<real, real>, need: real): Option<real> {
    if asks == [] then None
    else
      var before := Competing(asks[..|asks| - 1], ours, need);
      if before.Some? then before
      else if ForeignDepth(asks, ours) >= need then Some(asks[|asks| - 1].price) else None
  }

  lemma {:induction false} CompetingPrefix(asks: seq<Level>, i: nat, ours: map<real, real>, need: real)
    requires i <= |asks| && Competing(asks[..i], ours, need).Some?
    ensures Competing(asks, ours, need) == Competing(asks[..i], ours, need)
  {
    if i == |asks| {
      assert asks[..i] == asks;
    } else {
      assert asks[..|asks| - 1][..i] == asks[..i];
      CompetingPrefix(asks[..|asks| - 1], i, ours, need);
    }
  }

  /** What the venue shows: at each price the others' size and as much of our own as is still, or already,
      visible. Levels of nobody's size count for nothing. */
  datatype Shown = Shown(price: real, others: real, own: real)

  function Book(ls: seq<Shown>): seq<Level> {
    seq(|ls|, i requires 0 <= i < |ls| => Level(ls[i].price, ls[i].others + ls[i].own))
  }

  function Others(ls: seq<Shown>): seq<Level> {
    seq(|ls|, i requires 0 <= i < |ls| => Level(ls[i].price, ls[i].others))
  }

  ghost predicate Footprint(ls: seq<Shown>, ours: map<real, real>) {
    forall l :: l in ls ==> l.others >= 0.0 && 0.0 <= l.own <= Ours(ours, l.price)
  }

  /** p is no better an ask than q; none is the worst. */
  predicate NoLower(p: Option<real>, q: Option<real>) {
    p.None? || (q.Some? && p.value >= q.value)
  }

  /** One level: what is not ours of what is shown is not more than the others' size. */
  lemma ForeignNotAbove(l: Shown, ours: map<real, real>)
    requires l.others >= 0.0 && 0.0 <= l.own <= Ours(ours, l.price)
    ensures Foreign(Level(l.price, l.others + l.own), ours) <= Foreign(Level(l.price, l.others), map[]) == l.others
    ensures l.own == Ours(ours, l.price) ==> Foreign(Level(l.price, l.others + l.own), ours) == l.others
  {}

  lemma DepthStep(ls: seq<Shown>, ours: map<real, real>)
    requires ls != []
    ensures var (init, last) := (ls[..|ls| - 1], ls[|ls| - 1]);
      && ForeignDepth(Book(ls), ours) ==
        ForeignDepth(Book(init), ours) + Foreign(Level(last.price, last.others + last.own), ours)
      && ForeignDepth(Others(ls), map[]) ==
        ForeignDepth(Others(init), map[]) + Foreign(Level(last.price, last.others), map[])
  {
    assert Book(ls)[..|ls| - 1] == Book(ls[..|ls| - 1]) && Others(ls)[..|ls| - 1] == Others(ls[..|ls| - 1]);
  }

  lemma {:induction false} DepthNotAbove(ls: seq<Shown>, ours: map<real, real>)
    requires Footprint(ls, ours)
    ensures ForeignDepth(Book(ls), ours) <= ForeignDepth(Others(ls), map[])
    ensures (forall l :: l in ls ==> l.own == Ours(ours, l.price)) ==>
      ForeignDepth(Book(ls), ours) == ForeignDepth(Others(ls), map[])
  {
    if ls != [] {
      var init, last := ls[..|ls| - 1], ls[|ls| - 1];
      assert last in ls && forall l :: l in init ==> l in ls;
      DepthNotAbove(init, ours);
      DepthStep(ls, ours);
      ForeignNotAbove(last, ours);
    }
  }

  lemma {:induction false} CompetingIsListed(asks: seq<Level>, ours: map<real, real>, need: real)
    ensures Competing(asks, ours, need).Some? ==> exists l :: l in asks && l.price == Competing(asks, ours, need).value
  {
    if asks != [] {
      CompetingIsListed(asks[..|asks| - 1], ours, need);
      if Competing(asks[..|asks| - 1], ours, need).Some? {
        var l :| l in asks[..|asks| - 1] && l.price == Competing(asks, ours, need).value;
        assert l in asks;
      } else {
        assert asks[|asks| - 1] in asks;
      }
    }
  }

  ghost predicate Rising(ls: seq<Shown>) {
    forall i, j :: 0 <= i < j < |ls| ==> ls[i].price <= ls[j].price
  }

  lemma ShownInit(ls: seq<Shown>, ours: map<real, real>)
    requires ls != [] && Footprint(ls, ours)
    ensures var init := ls[..|ls| - 1];
      && Footprint(init, ours) && (Rising(ls) ==> Rising(init))
      && Book(ls)[..|ls| - 1] == Book(init) && Others(ls)[..|ls| - 1] == Others(init)
      && Book(ls)[|ls| - 1].price == ls[|ls| - 1].price && Others(ls)[|ls| - 1].price == ls[|ls| - 1].price
  {
    assert forall l :: l in ls[..|ls| - 1] ==> l in ls;
  }

  lemma EarlierIsLower(ls: seq<Shown>, need: real)
    requires ls != [] && Rising(ls)
    ensures var others := Competing(Others(ls[..|ls| - 1]), map[], need);
      others.Some? ==> others.value <= ls[|ls| - 1].price
  {
    var init := ls[..|ls| - 1];
    var others := Competing(Others(init), map[], need);
    if others.Some? {
      CompetingIsListed(Others(init), map[], need);
      var l :| l in Others(init) && l.price == others.value;
      var i :| 0 <= i < |init| && Others(init)[i] == l;
      assert ls[i].price <= ls[|ls| - 1].price;
    }
  }

  /** Our own footprint never pulls the competing price down: however much of the resting order and of the
      last cancelled one is still visible, it is never below the one of the book without us. */
  lemma {:induction false} FootprintNeverLowers(ls: seq<Shown>, ours: map<real, real>, need: real)
    requires Footprint(ls, ours) && Rising(ls)
    ensures NoLower(Competing(Book(ls), ours, need), Competing(Others(ls), map[], need))
  {
    if ls != [] {
      ShownInit(ls, ours);
      FootprintNeverLowers(ls[..|ls| - 1], ours, need);
      DepthNotAbove(ls, ours);
      EarlierIsLower(ls, need);
    }
  }

  /** With all of it visible the exclusion is exact. */
  lemma {:induction false} FullFootprintIsExact(ls: seq<Shown>, ours: map<real, real>, need: real)
    requires Footprint(ls, ours) && forall l :: l in ls ==> l.own == Ours(ours, l.price)
    ensures Competing(Book(ls), ours, need) == Competing(Others(ls), map[], need)
  {
    if ls != [] {
      ShownInit(ls, ours);
      assert forall l :: l in ls[..|ls| - 1] ==> l in ls;
      FullFootprintIsExact(ls[..|ls| - 1], ours, need);
      DepthNotAbove(ls, ours);
    }
  }

  // ---------- the price ----------

  const EXIT_LOCK := 0.005
  const EXIT_SLIP := 0.01
  const TICK := 0.01
  const KALSHI_MAKER := 0.0175
  const PM_US_TAKER := 0.06

  /** The default schedule, of which only these two coefficients matter here. */
  const EXIT_FEES := Schedule(0.07, KALSHI_MAKER, false, map[], 0.04, PM_US_TAKER)

  function KalshiFee(p: real, qty: nat): real {
    CeilCents(Times(KALSHI_MAKER, Times(qty as real, Curve(p))))
  }

  function PmFee(p: real, qty: nat): real {
    Times(PM_US_TAKER, Times(qty as real, Curve(p)))
  }

  /** Both fees of an exit, resting at p and closing at pa, refused like any fee out of range. */
  function ExitFees(p: real, pa: real, qty: nat): Outcome<real> {
    match (LegFee(EXIT_FEES, Kalshi, Maker, p, qty as real, "default", None),
           LegFee(EXIT_FEES, PolymarketUs, Taker, pa, qty as real, "default", None))
    case (Good(a), Good(b)) => Good(a + b)
    case _ => BadFill
  }

  function BasePrice(cost: real, pa: real): real {
    cost - (1.0 - pa) + EXIT_LOCK + EXIT_SLIP
  }

  /** The least price at which the exit is allowed to rest. */
  function MinPrice(cost: real, pa: real, qty: nat): Outcome<real>
    requires qty > 0
  {
    match ExitFees(BasePrice(cost, pa), pa, qty)
    case Good(fees) => Good(BasePrice(cost, pa) + fees / qty as real)
    case BadFill => BadFill
  }

  /** The ask to rest, a tick inside the competition if that is profitable and above the bid. */
  function Target(minPx: real, comp: Option<real>, bid: real): real {
    CeilCents(Wish(minPx, comp, bid))
  }

  predicate WholeCents(p: real) {
    (p * 100.0).Floor as real == p * 100.0
  }

  lemma CentsAreWhole(x: real)
    ensures WholeCents(CeilCents(x))
  {
    var n := Ceil(x * 100.0);
    assert CeilCents(x) * 100.0 == n as real;
  }

  /** Where the target comes from before rounding up to a cent. */
  function Wish(minPx: real, comp: Option<real>, bid: real): real {
    Max(if comp.Some? then Max(minPx, comp.value - TICK) else minPx, bid + TICK)
  }

  /** The target is the least whole-cent price that is profitable, above the bid and not more than a tick
      inside the competition. */
  lemma {:induction false} TargetIsLeast(minPx: real, comp: Option<real>, bid: real, cents: int)
    ensures var t := Target(minPx, comp, bid);
      && WholeCents(t)
      && t >= minPx && t > bid && (comp.Some? ==> t >= comp.value - 0.01)
    ensures var p := cents as real / 100.0;
      && p >= minPx && p >= bid + 0.01 && (comp.Some? ==> p >= comp.value - 0.01)
      ==> Target(minPx, comp, bid) <= p
  {
    var x := Wish(minPx, comp, bid);
    CentsAreWhole(x);
    CeilCentsIsLeast(x);
    if x <= cents as real / 100.0 { CeilCentsFits(x, cents); }
  }

  /** min is the least price of the exit: above the base price by both fees, a contract. */
  predicate PricedAt(cost: real, pa: real, qty: nat, min: real) {
    var base := BasePrice(cost, pa);
    0.0 <= base <= 1.0 && 0.0 <= pa <= 1.0 && Times(min - base, qty as real) == KalshiFee(base, qty) + PmFee(pa, qty)
  }

  /** The exit rests at t, no lower than its least price. */
  predicate RestsAt(cost: real, pa: real, qty: nat, min: real, t: real) {
    PricedAt(cost, pa, qty, min) && min <= t <= 1.0
  }

  /** Pricing is refused, aborting the refresh, exactly when the base price or the closing ask is no
      probability. */
  lemma PricingFailsExactly(cost: real, pa: real, qty: nat)
    requires qty > 0
    ensures var base := BasePrice(cost, pa);
      && (MinPrice(cost, pa, qty).BadFill? <==> !(0.0 <= base <= 1.0 && 0.0 <= pa <= 1.0))
      && (MinPrice(cost, pa, qty).Good? ==> PricedAt(cost, pa, qty, MinPrice(cost, pa, qty).value))
  {
    var base := BasePrice(cost, pa);
    match ExitFees(base, pa, qty) {
      case Good(fees) => TimesQuotient(fees, qty as real);
      case BadFill =>
    }
  }

  lemma CurveBounds(p: real)
    requires 0.0 <= p <= 1.0
    ensures 0.0 <= Curve(p) <= 0.25
  {
    TimesSign(p, 1.0 - p);
    CurvePeaks(p);
  }

  /** The curve never rises faster than the price. */
  lemma CurveGrowth(b: real, t: real)
    requires 0.0 <= b <= t
    ensures Curve(t) - Curve(b) <= t - b
  {
    TimesSubtracts(1.0, t, t);
    TimesSubtracts(1.0, b, b);
    TimesZero(t);
    TimesZero(b);
    TimesGrows(t, b, t);
    TimesGrows(b, b, t);
    TimesSwaps(t, b, 1.0);
  }

  lemma FeeBounds(p: real, qty: nat)
    requires 0.0 <= p <= 1.0 && qty > 0
    ensures 0.0 <= KalshiFee(p, qty) < 0.004375 * qty as real + CENT && 0.0 <= PmFee(p, qty) <= 0.015 * qty as real
    ensures qty == 1 ==> KalshiFee(p, qty) <= CENT
  {
    var q := qty as real;
    CurveBounds(p);
    TimesSign(q, Curve(p));
    TimesGrows(q, Curve(p), 0.25);
    assert Times(q, 0.25) == 0.25 * q;
    var x := Times(KALSHI_MAKER, Times(q, Curve(p)));
    assert x == 0.0175 * Times(q, Curve(p)) && PmFee(p, qty) == 0.06 * Times(q, Curve(p));
    CeilCentsIsLeast(x);
    if qty == 1 { CeilCentsFits(x, 1); }
  }

  /** The maker fee rises at most this much between two prices. */
  lemma FeeGrowth(b: real, t: real, qty: nat)
    requires 0.0 <= b <= t <= 1.0 && qty > 0
    ensures KalshiFee(t, qty) - KalshiFee(b, qty) < 0.0175 * Times(qty as real, t - b) + CENT
  {
    var q := qty as real;
    CurveGrowth(b, t);
    TimesGrows(q, Curve(t) - Curve(b), t - b);
    TimesSubtracts(Curve(t), Curve(b), q);
    var (x, y) := (Times(KALSHI_MAKER, Times(q, Curve(t))), Times(KALSHI_MAKER, Times(q, Curve(b))));
    assert x == 0.0175 * Times(q, Curve(t)) && y == 0.0175 * Times(q, Curve(b));
    CeilCentsIsLeast(x);
    CeilCentsIsLeast(y);
  }

  /** What an exit of the whole quantity makes, resting at t and closing at px, net of both fees. */
  function Profit(cost: real, t: real, px: real, qty: nat): real {
    Times(qty as real, t + (1.0 - px) - cost) - KalshiFee(t, qty) - PmFee(px, qty)
  }

  /** Every price the exit may rest at locks the promised margin net of the fees actually charged, when the
      other leg closes at the ask it was priced at. (The fees in the minimum price are those at the base
      price, not at the resting price; the slippage buffer covers the difference.) */
  lemma ExitLocks(cost: real, pa: real, qty: nat, min: real, t: real)
    requires qty > 0
    ensures RestsAt(cost, pa, qty, min, t) ==> Profit(cost, t, pa, qty) >= EXIT_LOCK * qty as real
  {
    if RestsAt(cost, pa, qty, min, t) {
      var (q, base) := (qty as real, BasePrice(cost, pa));
      FeeBounds(base, qty);
      FeeBounds(pa, qty);
      MinAboveBase(base, min, qty, KalshiFee(base, qty) + PmFee(pa, qty));
      LockArithmetic(q, t, base, min, KalshiFee(base, qty) + PmFee(pa, qty));
      FeeBounds(t, qty);
      FeeGrowth(base, t, qty);
      assert t + (1.0 - pa) - cost == EXIT_LOCK + EXIT_SLIP + (t - base);
      SplitLock(q, t - base);
      if qty >= 2 { assert q >= 2.0; }
    }
  }

  /** A taker fee one tick higher: the curve rises below the middle of the book and falls above it. */
  lemma PmFeeGrowth(pa: real, qty: nat)
    requires qty > 0
    ensures PmFee(pa + EXIT_SLIP, qty) - PmFee(pa, qty) == 0.0006 * Times(qty as real, 0.99 - 2.0 * pa)
  {
    var q := qty as real;
    CurveStep(pa);
    TimesSubtracts(Curve(pa + EXIT_SLIP), Curve(pa), q);
    assert Times(q, 0.01 * (0.99 - 2.0 * pa)) == 0.01 * Times(q, 0.99 - 2.0 * pa);
    assert PmFee(pa + EXIT_SLIP, qty) == 0.06 * Times(q, Curve(pa + EXIT_SLIP));
    assert PmFee(pa, qty) == 0.06 * Times(q, Curve(pa));
  }

  lemma CurveStep(pa: real)
    ensures Curve(pa + EXIT_SLIP) - Curve(pa) == 0.01 * (0.99 - 2.0 * pa)
  {
    TimesAdds(pa, 0.01, 1.0 - (pa + 0.01));
    TimesSubtracts(1.0 - pa, 0.01, pa);
    assert 1.0 - (pa + 0.01) == 1.0 - pa - 0.01;
    assert Times(pa, 0.01) == 0.01 * pa && Times(0.01, 1.0 - (pa + 0.01)) == 0.01 * (1.0 - (pa + 0.01));
  }

  /** An exit that pays kalshi in maker fees locks the margin exactly when the room above the base price, less
      the slip beyond what was allowed for, covers the fees. */
  lemma LocksIff(cost: real, pa: real, qty: nat, t: real, px: real, kalshi: real)
    requires qty > 0
    ensures Times(qty as real, t + (1.0 - px) - cost) - kalshi - PmFee(px, qty) >= EXIT_LOCK * qty as real <==>
      Times(qty as real, t - BasePrice(cost, pa) + EXIT_SLIP - (px - pa)) >= kalshi + PmFee(px, qty)
  {
    var room := t - BasePrice(cost, pa) + EXIT_SLIP - (px - pa);
    assert t + (1.0 - px) - cost == EXIT_LOCK + room;
    TimesAdds(EXIT_LOCK, room, qty as real);
    assert Times(qty as real, EXIT_LOCK) == EXIT_LOCK * qty as real;
  }

  lemma RoomAboveMin(cost: real, pa: real, qty: nat, min: real, t: real)
    requires qty > 0
    ensures var base := BasePrice(cost, pa);
      PricedAt(cost, pa, qty, min) ==>
        Times(qty as real, t - base) == Times(qty as real, t - min) + KalshiFee(base, qty) + PmFee(pa, qty)
  {
    if PricedAt(cost, pa, qty, min) {
      var (q, base) := (qty as real, BasePrice(cost, pa));
      TimesSwaps(q, min - base, 1.0);
      TimesAdds(t - min, min - base, q);
      assert t - base == (t - min) + (min - base);
    }
  }

  /** Exactly when the margin survives the tick of slip that was allowed for: the room above the minimum
      price must cover what the two fees have grown by since it was set. The taker fee shrinks from 49.5
      cents on, so there an exit at the minimum price locks unless its maker fee rounds up a cent more. */
  lemma SlippedExitLocksIff(cost: real, pa: real, qty: nat, min: real, t: real)
    requires qty > 0
    ensures var base := BasePrice(cost, pa);
      PricedAt(cost, pa, qty, min) ==>
        (Profit(cost, t, pa + EXIT_SLIP, qty) >= EXIT_LOCK * qty as real <==>
         Times(qty as real, t - min) >= KalshiFee(t, qty) - KalshiFee(base, qty)
                                             + 0.0006 * Times(qty as real, 0.99 - 2.0 * pa))
  {
    if PricedAt(cost, pa, qty, min) {
      LocksIff(cost, pa, qty, t, pa + EXIT_SLIP, KalshiFee(t, qty));
      RoomAboveMin(cost, pa, qty, min, t);
      PmFeeGrowth(pa, qty);
      assert t - BasePrice(cost, pa) + EXIT_SLIP - (pa + EXIT_SLIP - pa) == t - BasePrice(cost, pa);
    }
  }

  /** What the venue charges when the ask fills in parts, each rounded up. */
  function KalshiParts(p: real, parts: seq<nat>): real {
    if parts == [] then 0.0 else KalshiFee(p, parts[0]) + KalshiParts(p, parts[1..])
  }

  function Whole(parts: seq<nat>): nat {
    if parts == [] then 0 else parts[0] + Whole(parts[1..])
  }

  /** Filling in parts costs less than a cent a part more than the unrounded fee of the whole, and never less. */
  lemma {:induction false} PartsCost(p: real, parts: seq<nat>)
    ensures var exact := Times(KALSHI_MAKER, Times(Whole(parts) as real, Curve(p)));
      exact <= KalshiParts(p, parts) <= exact + CENT * |parts| as real
  {
    if parts == [] {
      TimesZero(Curve(p));
      TimesZero(KALSHI_MAKER);
    } else {
      var (a, b) := (parts[0] as real, Whole(parts[1..]) as real);
      PartsCost(p, parts[1..]);
      CeilCentsIsLeast(Times(KALSHI_MAKER, Times(a, Curve(p))));
      TimesAdds(a, b, Curve(p));
      TimesAdds(Times(a, Curve(p)), Times(b, Curve(p)), KALSHI_MAKER);
    }
  }

  /** What an exit makes that fills in parts, net of the fees of each. */
  function ProfitInParts(cost: real, t: real, px: real, parts: seq<nat>): real {
    Times(Whole(parts) as real, t + (1.0 - px) - cost) - KalshiParts(t, parts) - PmFee(px, Whole(parts))
  }

  /** An exit that fills in parts keeps its lock within a cent a part, and keeps all of it exactly when the
      room above the base price covers the fees of the parts. */
  lemma PartsLock(cost: real, pa: real, parts: seq<nat>, min: real, t: real)
    requires Whole(parts) > 0
    ensures var q := Whole(parts) as real;
      RestsAt(cost, pa, Whole(parts), min, t) ==>
        && ProfitInParts(cost, t, pa, parts) >= EXIT_LOCK * q - CENT * |parts| as real
        && (ProfitInParts(cost, t, pa, parts) >= EXIT_LOCK * q <==>
             Times(q, t - BasePrice(cost, pa) + EXIT_SLIP) >= KalshiParts(t, parts) + PmFee(pa, Whole(parts)))
  {
    if RestsAt(cost, pa, Whole(parts), min, t) {
      var qty := Whole(parts);
      ExitLocks(cost, pa, qty, min, t);
      PartsCost(t, parts);
      CeilCentsIsLeast(Times(KALSHI_MAKER, Times(qty as real, Curve(t))));
      LocksIff(cost, pa, qty, t, pa, KalshiParts(t, parts));
      assert t - BasePrice(cost, pa) + EXIT_SLIP - (pa - pa) == t - BasePrice(cost, pa) + EXIT_SLIP;
    }
  }

  /** When the close slips by the tick that was allowed for, the lock can be missed, but by no more than a
      tenth of a cent a contract and a cent in all. */
  lemma SlippedExitNearlyLocks(cost: real, pa: real, qty: nat, min: real, t: real)
    requires qty > 0
    ensures RestsAt(cost, pa, qty, min, t) ==>
      Profit(cost, t, pa + EXIT_SLIP, qty) > (EXIT_LOCK - 0.001) * qty as real - 0.0102
  {
    if RestsAt(cost, pa, qty, min, t) {
      var (q, base) := (qty as real, BasePrice(cost, pa));
      FeeBounds(base, qty);
      FeeBounds(pa, qty);
      MinAboveBase(base, min, qty, KalshiFee(base, qty) + PmFee(pa, qty));
      LockArithmetic(q, t, base, min, KalshiFee(base, qty) + PmFee(pa, qty));
      FeeGrowth(base, t, qty);
      PmFeeGrowth(pa, qty);
      TimesGrows(q, 0.99 - 2.0 * pa, 1.0);
      TimesZero(q);
      assert t + (1.0 - (pa + EXIT_SLIP)) - cost == EXIT_LOCK + EXIT_SLIP + (t - base) - EXIT_SLIP;
      SplitLock(q, t - base);
      TimesSubtracts(EXIT_LOCK + EXIT_SLIP + (t - base), EXIT_SLIP, q);
      assert Times(q, EXIT_SLIP) == 0.01 * q;
    }
  }

  /** One such miss: ten contracts of basis 69.7 cents, priced against a 50-cent ask, rest at 23 cents. */
  lemma SlippedExitCanMiss() returns (cost: real, pa: real, qty: nat, t: real)
    ensures qty > 0 && MinPrice(cost, pa, qty).Good? && t == Target(MinPrice(cost, pa, qty).value, None, 0.10)
    ensures Profit(cost, t, pa + EXIT_SLIP, qty) < EXIT_LOCK * qty as real
  {
    cost, pa, qty, t := 0.697, 0.5, 10, 0.23;
    assert BasePrice(cost, pa) == 0.212;
    PricingFailsExactly(cost, pa, qty);
    assert KalshiFee(0.212, 10) == 0.03 && PmFee(0.5, 10) == 0.15;
    assert MinPrice(cost, pa, qty).value == 0.23;
    assert KalshiFee(0.23, 10) == 0.04;
    assert PmFee(0.51, 10) == 0.14994;
    assert Times(10.0, 0.023) == 0.23;
  }

  // ---------- keeping or moving the ask ----------

  /** An exit ask: its price, quantity, and age in seconds. */
  datatype ExitAsk = ExitAsk(price: real, qty: nat, age: real)

  const SLOW := 180.0
  const MOST := 0.99

  /** The exit asks of one relationship that may be live: the one the program tracks, and those it has
      forgotten although they rest. The echo is the last ask it cancelled, remembered for one refresh. */
  datatype Desk = Desk(tracked: Option<ExitAsk>, echo: Option<ExitAsk>, strays: seq<ExitAsk>)

  const EMPTY_DESK := Desk(None, None, [])

  function Live(d: Desk): seq<ExitAsk> {
    if d.tracked.Some? then d.strays + [d.tracked.value] else d.strays
  }

  /** A placement is accepted with an id, or not, and then may rest all the same. */
  datatype Placement = Accepted | Lost(rests: bool)

  /** _exit_drop with a cancel: the ask is forgotten whatever the cancel did. */
  function Dropped(d: Desk, cancel: CancelReply): Desk {
    if d.tracked.None? then d
    else Desk(None, d.tracked, if cancel == CancelFailed(false) then d.strays + [d.tracked.value] else d.strays)
  }

  /** The tracked ask stays: it is where it should be, or is profitable, young, and would only move away. */
  predicate Keeps(d: Desk, minPx: real, target: real, qty: nat) {
    && target <= MOST && d.tracked.Some?
    && var st := d.tracked.value;
       (st.price == target && st.qty == qty) || (target > st.price && st.price >= minPx && st.age < SLOW)
  }

  /** A refresh that got as far as a target. It consumes the echo, and leaves a new one if it cancels. */
  function Refresh(d: Desk, minPx: real, target: real, qty: nat, cancel: CancelReply, place: Placement): Desk {
    if Keeps(d, minPx, target, qty) then d.(echo := None)
    else
      var e, ask := Dropped(d.(echo := None), cancel), ExitAsk(target, qty, 0.0);
      if target > MOST then e
      else
        match place
        case Accepted => e.(tracked := Some(ask))
        case Lost(rests) => if rests then e.(strays := e.strays + [ask]) else e
  }

  class ExitDesk {
    var tracked: Option<ExitAsk>
    var echo: Option<ExitAsk>
    ghost var strays: seq<ExitAsk>

    ghost function Now(): Desk
      reads this
    {
      Desk(tracked, echo, strays)
    }

    constructor ()
      ensures Now() == EMPTY_DESK
    {
      tracked, echo, strays := None, None, [];
    }

    method ExitDrop(cancel: CancelReply)
      modifies this
      ensures Now() == Dropped(old(Now()), cancel)
    {
      if tracked.None? { return; }
      if cancel == CancelFailed(false) { strays := strays + [tracked.value]; }
      echo := tracked;
      tracked := None;
    }

    method ExitRefresh(minPx: real, target: real, qty: nat, cancel: CancelReply, place: Placement)
      modifies this
      ensures Now() == Refresh(old(Now()), minPx, target, qty, cancel, place)
    {
      echo := None;
      if target > MOST {
        ExitDrop(cancel);
        return;
      }
      if tracked.Some? {
        var st := tracked.value;
        if st.price == target && st.qty == qty { return; }
        if target > st.price && st.price >= minPx && st.age < SLOW { return; }
        ExitDrop(cancel);
      }
      if place.Accepted? {
        tracked := Some(ExitAsk(target, qty, 0.0));
      } else if place.rests {
        strays := strays + [ExitAsk(target, qty, 0.0)];
      }
    }
  }

  predicate Profitable(asks: seq<ExitAsk>, minPx: real) {
    forall a :: a in asks ==> a.price >= minPx
  }

  /** What a refresh tracks is profitable, no more passive than the target, at most 99 cents, and at the target
      with the wanted quantity unless it is a young ask that would only move away from the touch. */
  lemma TrackedIsProfitable(d: Desk, minPx: real, comp: Option<real>, bid: real, qty: nat, cancel: CancelReply,
                            place: Placement)
    ensures var target := Target(minPx, comp, bid);
      var t := Refresh(d, minPx, target, qty, cancel, place);
      && target >= minPx
      && (t.tracked.Some? ==>
           && minPx <= t.tracked.value.price <= target <= MOST
           && (t.tracked.value.price == target ==> t.tracked.value.qty == qty)
           && (t.tracked.value.price == target || (t.tracked == d.tracked && t.tracked.value.age < SLOW)))
  {
    CeilCentsIsLeast(Wish(minPx, comp, bid));
  }

  /** An ask survives a refresh exactly when the target is at most 99 cents and it is already there with the wanted
      quantity, or is below the target, profitable and younger than three minutes. Otherwise what is tracked, if
      anything, is new, at the target with the wanted quantity: so it is exactly when the target is at most
      99 cents and the venue accepts. */
  lemma KeptOrReplaced(d: Desk, minPx: real, target: real, qty: nat, cancel: CancelReply, place: Placement)
    ensures var t := Refresh(d, minPx, target, qty, cancel, place);
      if target <= 0.99 && d.tracked.Some?
         && ((d.tracked.value.price == target && d.tracked.value.qty == qty)
             || (minPx <= d.tracked.value.price < target && d.tracked.value.age < 180.0))
      then t.tracked == d.tracked && t.strays == d.strays
      else if target <= 0.99 && place.Accepted? then t.tracked == Some(ExitAsk(target, qty, 0.0))
      else t.tracked == None
  {}

  /** But what is live after a refresh is profitable if and only if every stray was, and the tracked ask was too
      in case its cancel failed. */
  lemma LiveIsProfitableIff(d: Desk, minPx: real, comp: Option<real>, bid: real, qty: nat, cancel: CancelReply,
                            place: Placement)
    ensures var target := Target(minPx, comp, bid);
      Profitable(Live(Refresh(d, minPx, target, qty, cancel, place)), minPx) <==>
      && Profitable(d.strays, minPx)
      && (d.tracked.Some? && !Keeps(d, minPx, target, qty) && cancel == CancelFailed(false) ==>
        d.tracked.value.price >= minPx)
  {
    var target := Target(minPx, comp, bid);
    var (e, t) := (Dropped(d, cancel), Refresh(d, minPx, target, qty, cancel, place));
    TrackedIsProfitable(d, minPx, comp, bid, qty, cancel, place);
    if d.tracked.Some? { ProfitableAppend(d.strays, d.tracked.value, minPx); }
    ProfitableAppend(e.strays, ExitAsk(target, qty, 0.0), minPx);
  }

  lemma ProfitableAppend(asks: seq<ExitAsk>, a: ExitAsk, minPx: real)
    ensures Profitable(asks + [a], minPx) <==> Profitable(asks, minPx) && a.price >= minPx
  {
    assert a in asks + [a];
    assert forall x :: x in asks + [a] <==> x in asks || x == a;
  }

  /** What happens to the asks of a relationship: a refresh, or its basket is no longer wanted, or the
      tracked ask fills, or time passes. */
  datatype DeskEvent =
    | Refreshed(minPx: real, target: real, qty: nat, cancel: CancelReply, place: Placement)
    | Unwanted(cancel: CancelReply)
    | Filled
    | Aged(seconds: nat)

  function Older(a: ExitAsk, seconds: nat): ExitAsk {
    a.(age := a.age + seconds as real)
  }

  function DeskStep(d: Desk, e: DeskEvent): Desk {
    match e
    case Refreshed(minPx, target, qty, cancel, place) => Refresh(d, minPx, target, qty, cancel, place)
    case Unwanted(cancel) => Dropped(d, cancel)
    case Filled => d.(tracked := None)
    case Aged(seconds) =>
      d.(tracked := if d.tracked.Some? then Some(Older(d.tracked.value, seconds)) else None,
         strays := seq(|d.strays|, i requires 0 <= i < |d.strays| => Older(d.strays[i], seconds)))
  }

  function DeskRun(es: seq<DeskEvent>): Desk {
    if es == [] then EMPTY_DESK else DeskStep(DeskRun(es[..|es| - 1]), es[|es| - 1])
  }

  /** The event leaves an ask behind: a cancel it needed failed, or a placement it made rests unanswered. */
  predicate Strays(d: Desk, e: DeskEvent) {
    match e
    case Refreshed(minPx, target, qty, cancel, place) =>
      && !Keeps(d, minPx, target, qty)
      && ((d.tracked.Some? && cancel == CancelFailed(false)) || (target <= MOST && place == Lost(true)))
    case Unwanted(cancel) => d.tracked.Some? && cancel == CancelFailed(false)
    case _ => false
  }

  predicate NoneStrays(es: seq<DeskEvent>) {
    forall k :: 0 <= k < |es| ==> !Strays(DeskRun(es[..k]), es[k])
  }

  lemma NoneStraysInit(es: seq<DeskEvent>)
    requires es != []
    ensures NoneStrays(es) <==> NoneStrays(es[..|es| - 1]) && !Strays(DeskRun(es[..|es| - 1]), es[|es| - 1])
  {
    var init := es[..|es| - 1];
    forall k | 0 <= k < |init| ensures init[k] == es[k] && init[..k] == es[..k] {}
  }

  lemma StepStrays(d: Desk, e: DeskEvent)
    ensures DeskStep(d, e).strays == [] <==> d.strays == [] && !Strays(d, e)
  {}

  /** Over any run, at most the tracked ask is live if and only if no event left one behind. */
  lemma {:induction false} OneAskIff(es: seq<DeskEvent>)
    ensures DeskRun(es).strays == [] <==> NoneStrays(es)
  {
    if es != [] {
      OneAskIff(es[..|es| - 1]);
      NoneStraysInit(es);
      StepStrays(DeskRun(es[..|es| - 1]), es[|es| - 1]);
    }
  }

  /** How much time passes in the events. */
  function Seconds(es: seq<DeskEvent>): nat {
    if es == [] then 0 else Seconds(es[..|es| - 1]) + if es[|es| - 1].Aged? then es[|es| - 1].seconds else 0
  }

  /** Event i placed the ask, and since then it neither filled nor was dropped, and only grew older. */
  ghost predicate PlacedAt(es: seq<DeskEvent>, i: nat, a: ExitAsk) {
    && i < |es| && es[i].Refreshed? && es[i].place.Accepted? && es[i].target <= 0.99
    && a == ExitAsk(es[i].target, es[i].qty, Seconds(es[i + 1..]) as real)
    && forall k :: i < k < |es| ==> !es[k].Filled? && !es[k].Unwanted?
  }

  lemma PlacedStays(es: seq<DeskEvent>, i: nat, a: ExitAsk)
    requires es != [] && PlacedAt(es[..|es| - 1], i, a) && !es[|es| - 1].Filled? && !es[|es| - 1].Unwanted?
    ensures PlacedAt(es, i, Older(a, if es[|es| - 1].Aged? then es[|es| - 1].seconds else 0))
  {
    var init := es[..|es| - 1];
    assert es[i + 1..][..|es[i + 1..]| - 1] == init[i + 1..];
    assert es[i] == init[i] && forall k :: 0 <= k < |init| ==> es[k] == init[k];
  }

  /** Over any run what is tracked was placed by one refresh, at its target with its quantity, is as old as the
      time since, and was neither filled nor dropped in between. */
  lemma {:induction false} TrackedWasPlaced(es: seq<DeskEvent>) returns (i: nat)
    requires DeskRun(es).tracked.Some?
    ensures PlacedAt(es, i, DeskRun(es).tracked.value)
  {
    var (init, e) := (es[..|es| - 1], es[|es| - 1]);
    var (d, t) := (DeskRun(init), DeskRun(es));
    if e.Refreshed? && !Keeps(d, e.minPx, e.target, e.qty) {
      i := |init|;
      assert es[i + 1..] == [];
    } else {
      i := TrackedWasPlaced(init);
      PlacedStays(es, i, d.tracked.value);
    }
  }

  /** A failed cancel leaves an ask below a floor that has since risen: 20 cents, where 30 is the least. */
  lemma StrayBelowTheFloor()
    ensures var d := Refresh(Desk(Some(ExitAsk(0.2, 5, 10.0)), None, []), 0.3, Target(0.3, None, 0.1), 5,
                             CancelFailed(false), Accepted);
      Live(d) == [ExitAsk(0.2, 5, 10.0), ExitAsk(0.3, 5, 0.0)] && !Profitable(Live(d), 0.3)
  {
    assert Target(0.3, None, 0.1) == 0.3;
    var d := Refresh(Desk(Some(ExitAsk(0.2, 5, 10.0)), None, []), 0.3, 0.3, 5, CancelFailed(false), Accepted);
    assert Live(d)[0] == ExitAsk(0.2, 5, 10.0);
  }

  lemma DeskRunAppend(es: seq<DeskEvent>, e: DeskEvent)
    ensures DeskRun(es + [e]) == DeskStep(DeskRun(es), e)
  {
    assert (es + [e])[..|es|] == es;
  }

  /** An ask that would only move away is left alone for three minutes, then replaced; if its cancel fails,
      both stay live. */
  lemma {:induction false} SlowAskIsReplaced(seconds: nat, cancel: CancelReply) returns (es: seq<DeskEvent>)
    ensures |es| == 3 && es[1] == Aged(seconds)
    ensures DeskRun(es).tracked ==
      Some(if seconds < 180 then ExitAsk(0.2, 5, seconds as real) else ExitAsk(0.3, 5, 0.0))
    ensures DeskRun(es).strays ==
      if seconds >= 180 && cancel == CancelFailed(false) then [ExitAsk(0.2, 5, seconds as real)] else []
  {
    var first := Refreshed(0.1, 0.2, 5, CancelDone, Accepted);
    var second := Refreshed(0.1, 0.3, 5, cancel, Accepted);
    DeskRunAppend([], first);
    DeskRunAppend([] + [first], Aged(seconds));
    DeskRunAppend([] + [first] + [Aged(seconds)], second);
    es := [] + [first] + [Aged(seconds)] + [second];
  }

  // ---------- whose depth counts as competition ----------

  /** Our size at a price among some asks. */
  function SizeAt(asks: seq<ExitAsk>, p: real): real {
    if asks == [] then 0.0
    else SizeAt(asks[..|asks| - 1], p) + if asks[|asks| - 1].price == p then asks[|asks| - 1].qty as real else 0.0
  }

  /** What a refresh takes out of the book as ours: the tracked ask and the echo. */
  function Known(d: Desk): map<real, real> {
    var st := if d.tracked.Some? then map[d.tracked.value.price := d.tracked.value.qty as real] else map[];
    if d.echo.None? then st
    else st[d.echo.value.price := Ours(st, d.echo.value.price) + d.echo.value.qty as real]
  }

  /** What may be ours in the book at a price. */
  function LiveAt(d: Desk, p: real): real {
    SizeAt(Live(d), p)
  }

  /** All that may be ours is taken out. */
  ghost predicate Covered(d: Desk) {
    forall p :: SizeAt(d.strays, p) <= EchoAt(d, p)
  }

  function EchoAt(d: Desk, p: real): real {
    if d.echo.Some? && d.echo.value.price == p then d.echo.value.qty as real else 0.0
  }

  lemma SizeAppend(asks: seq<ExitAsk>, a: ExitAsk, p: real)
    ensures SizeAt(asks + [a], p) == SizeAt(asks, p) + if a.price == p then a.qty as real else 0.0
  {
    assert (asks + [a])[..|asks|] == asks;
  }

  lemma {:induction false} SizeSign(asks: seq<ExitAsk>, p: real)
    ensures SizeAt(asks, p) >= 0.0
  {
    if asks != [] { SizeSign(asks[..|asks| - 1], p); }
  }

  lemma KnownIs(d: Desk, p: real)
    ensures LiveAt(d, p) - Ours(Known(d), p) == SizeAt(d.strays, p) - EchoAt(d, p)
    ensures LiveAt(d, p) >= 0.0
  {
    SizeSign(Live(d), p);
    if d.tracked.Some? { SizeAppend(d.strays, d.tracked.value, p); }
  }

  /** The venue shows others' asks, and at each price no more of ours than may be live. */
  ghost predicate MayShow(d: Desk, ls: seq<Shown>) {
    Rising(ls) && forall l :: l in ls ==> l.others >= 0.0 && 0.0 <= l.own <= LiveAt(d, l.price)
  }

  /** The competing price that a refresh finds is never below the one of the book without us. */
  ghost predicate NeverUndercut(d: Desk, need: real) {
    forall ls: seq<Shown> :: MayShow(d, ls) ==>
      NoLower(Competing(Book(ls), Known(d), need), Competing(Others(ls), map[], need))
  }

  /** A refresh never takes its own asks for competition if and only if every ask it lost track of is covered
      by the echo of the last cancel. */
  lemma {:induction false} NeverUndercutIff(d: Desk, need: real)
    requires need > 0.0
    ensures NeverUndercut(d, need) <==> Covered(d)
  {
    if Covered(d) {
      forall ls: seq<Shown> | MayShow(d, ls)
        ensures NoLower(Competing(Book(ls), Known(d), need), Competing(Others(ls), map[], need))
      {
        forall l | l in ls ensures l.own <= Ours(Known(d), l.price) {
          KnownIs(d, l.price);
          assert SizeAt(d.strays, l.price) <= EchoAt(d, l.price);
        }
        FootprintNeverLowers(ls, Known(d), need);
      }
    } else {
      var p :| SizeAt(d.strays, p) > EchoAt(d, p);
      UncoveredUndercuts(d, need, p);
    }
  }

  lemma OneLevel(l: Level, ours: map<real, real>, need: real)
    ensures Competing([l], ours, need) == if Foreign(l, ours) >= need then Some(l.price) else None
  {
    assert [l][..0] == [];
    assert ForeignDepth([l], ours) == 0.0 + Foreign(l, ours);
  }

  lemma OneShown(p: real, others: real, own: real, ours: map<real, real>, need: real)
    ensures var l := Shown(p, others, own);
      && Competing(Book([l]), ours, need) ==
        (if Foreign(Level(p, others + own), ours) >= need then Some(p) else None)
      && Competing(Others([l]), ours, need) == if Foreign(Level(p, others), ours) >= need then Some(p) else None
  {
    var l := Shown(p, others, own);
    assert Book([l]) == [Level(p, others + own)] && Others([l]) == [Level(p, others)];
    OneLevel(Level(p, others + own), ours, need);
    OneLevel(Level(p, others), ours, need);
  }

  /** Where more of ours may show than is taken out, others' size just short of enough looks like enough. */
  lemma UncoveredUndercuts(d: Desk, need: real, p: real)
    requires need > 0.0 && SizeAt(d.strays, p) > EchoAt(d, p)
    ensures !NeverUndercut(d, need)
  {
    KnownIs(d, p);
    var (own, known) := (LiveAt(d, p), Known(d));
    var others := Max(need - (own - Ours(known, p)), 0.0);
    OneShown(p, others, own, known, need);
    OneShown(p, others, own, map[], need);
    var ls := [Shown(p, others, own)];
    assert MayShow(d, ls);
    assert !NoLower(Competing(Book(ls), known, need), Competing(Others(ls), map[], need));
  }

  predicate Quantified(asks: seq<ExitAsk>) {
    forall a :: a in asks ==> a.qty > 0
  }

  /** Nothing is covered without an echo but the absence of strays. */
  lemma {:induction false} CoveredWithoutEcho(d: Desk)
    requires Quantified(d.strays) && d.echo.None?
    ensures Covered(d) <==> d.strays == []
  {
    if d.strays != [] {
      var last := d.strays[|d.strays| - 1];
      SizeSign(d.strays[..|d.strays| - 1], last.price);
      assert SizeAt(d.strays, last.price) > 0.0;
    }
  }

  /** So a stray is competition from the second refresh after it was left: unless a refresh cancels something
      itself, it leaves all of our asks known exactly when there is no stray. */
  lemma {:induction false} StraysCountAfterwards(d: Desk, minPx: real, target: real, qty: nat, cancel: CancelReply,
                                                 place: Placement, need: real)
    requires Quantified(d.strays) && qty > 0 && need > 0.0
    requires Keeps(d, minPx, target, qty) || d.tracked.None?
    ensures var t := Refresh(d, minPx, target, qty, cancel, place);
      NeverUndercut(t, need) <==> t.strays == []
  {
    var t := Refresh(d, minPx, target, qty, cancel, place);
    NeverUndercutIff(t, need);
    CoveredWithoutEcho(t);
  }

  /** Over any run that leaves no ask behind, and through the refresh after the first that does, no refresh
      takes our own asks for competition. */
  lemma {:induction false} CoveredThrough(es: seq<DeskEvent>, e: DeskEvent, need: real)
    requires NoneStrays(es) && need > 0.0 && !(e.Refreshed? && e.place == Lost(true))
    ensures NeverUndercut(DeskRun(es), need) && NeverUndercut(DeskRun(es + [e]), need)
  {
    var (d, t) := (DeskRun(es), DeskRun(es + [e]));
    OneAskIff(es);
    DeskRunAppend(es, e);
    forall p ensures SizeAt(d.strays, p) <= EchoAt(d, p) && SizeAt(t.strays, p) <= EchoAt(t, p) {
      if d.tracked.Some? { SizeAppend([], d.tracked.value, p); }
    }
    NeverUndercutIff(d, need);
    NeverUndercutIff(t, need);
  }

  lemma MinAboveBase(base: real, min: real, qty: nat, fees: real)
    requires qty > 0 && Times(min - base, qty as real) == fees && fees >= 0.0
    ensures base <= min
  {
    if min < base {
      TimesSign(base - min, qty as real);
      TimesSubtracts(min, base, qty as real);
      TimesSubtracts(base, min, qty as real);
    }
  }

  lemma LockArithmetic(q: real, t: real, base: real, min: real, fees: real)
    requires q > 0.0 && base <= min <= t && Times(min - base, q) == fees
    ensures Times(q, t - base) >= fees
  {
    TimesAdds(t - min, min - base, q);
    TimesSign(q, t - min);
    TimesSwaps(q, min - base, 1.0);
    assert t - base == (t - min) + (min - base);
  }

  lemma SplitLock(q: real, d: real)
    ensures Times(q, EXIT_LOCK + EXIT_SLIP + d) == (EXIT_LOCK + EXIT_SLIP) * q + Times(q, d)
  {
    TimesAdds(EXIT_LOCK + EXIT_SLIP, d, q);
  }
}
