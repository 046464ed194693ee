/** The concentration cap of the take-take path (src/arbbot/exec/main.py: _tt_refresh, _take_take): how many
    contracts an exchange leg may accumulate, when position reads fail, come back empty or lag. */
module TakeTake {
  import opened Core

  const CAP := 50
  const MAX_CLIP := 100
  const COOLDOWN := 30.0

  /** The program's memory: positions read from both venues, what it fired itself, and when. */
  datatype Memory = Memory(pos: map<string, real>, ppos: map<string, real>, fired: map<string, int>,
                           lastFire: map<string, real>)

  /** What became of an attempt. truth is what the first leg really filled, known to the venue alone; filled
      is what was read of it, possibly too early; the second leg may raise. */
  datatype Outcome = PlaceRaised(truth: nat) | Read(filled: int, truth: nat, hedgeRaised: bool)

  /** One book tick for a relationship with its two legs: whether edge, return and date allow it, the top
      depth, the risk gate, and whether both gateways are there. */
  datatype Attempt = Attempt(rel: string, ticker: string, slug: string, now: real, worth: bool, depth: int,
                             allowed: bool, gateways: bool, outcome: Outcome)

  /** Either an attempt, or a refresh of the positions; a failed read is absent. */
  datatype Event = Fire(a: Attempt) | Refresh(pos: Option<map<string, real>>, ppos: Option<map<string, real>>)

  datatype State = State(m: Memory, truth: map<string, int>)

  function At(m: map<string, real>, k: string): real {
    if k in m then m[k] else 0.0
  }

  function Count(m: map<string, int>, k: string): int {
    if k in m then m[k] else 0
  }

  function Least(a: int, b: int): int {
    if a <= b then a else b
  }

  /** The position the cap is held against. */
  function Position(m: Memory, a: Attempt): real {
    Max(Max(At(m.pos, a.ticker), At(m.ppos, a.slug)), Count(m.fired, a.slug) as real)
  }

  function Size(m: Memory, a: Attempt): int {
    Least(Least(CAP - Position(m, a).Floor, a.depth), MAX_CLIP)
  }

  /** The first leg is sent. */
  predicate Sends(m: Memory, a: Attempt) {
    a.worth && a.now - At(m.lastFire, a.rel) >= COOLDOWN && Size(m, a) >= 1 && a.allowed && a.gateways
  }

  function Remember(m: Memory, a: Attempt): Memory {
    if !a.worth || a.now - At(m.lastFire, a.rel) < COOLDOWN || Size(m, a) < 1 then m
    else
      var tried := m.(lastFire := m.lastFire[a.rel := a.now]);
      if !a.allowed || !a.gateways then tried
      else
        match a.outcome
        case PlaceRaised(_) => tried
        case Read(filled, _, hedgeRaised) =>
          if filled < 1 then tried.(fired := m.fired[a.slug := Count(m.fired, a.slug) + Size(m, a)])
          else if hedgeRaised then tried
          else tried.(pos := m.pos[a.ticker := Position(m, a).Floor as real + filled as real],
                      fired := m.fired[a.slug := Count(m.fired, a.slug) + filled])
  }

  function Refreshed(m: Memory, pos: Option<map<string, real>>, ppos: Option<map<string, real>>): Memory {
    var n := if pos.Some? then m.(pos := pos.value) else m;
    if ppos.Some? && (ppos.value != map[] || m.ppos == map[]) then n.(ppos := ppos.value) else n
  }

  function Step(s: State, e: Event): State {
    match e
    case Refresh(pos, ppos) => s.(m := Refreshed(s.m, pos, ppos))
    case Fire(a) =>
      State(Remember(s.m, a),
            if Sends(s.m, a) then s.truth[a.slug := Count(s.truth, a.slug) + a.outcome.truth] else s.truth)
  }

  class Taker {
    var pos: map<string, real>
    var ppos: map<string, real>
    var fired: map<string, int>
    var lastFire: map<string, real>

    ghost function Now(): Memory
      reads this
    {
      Memory(pos, ppos, fired, lastFire)
    }

    /** seed is what the ledger's open take-take baskets hold. */
    constructor (seed: map<string, int>)
      ensures Now() == Memory(map[], map[], seed, map[])
    {
      pos, ppos, fired, lastFire := map[], map[], seed, map[];
    }

    /** An empty read while something is remembered is a glitch. */
    method TtRefresh(newPos: Option<map<string, real>>, newPpos: Option<map<string, real>>)
      modifies this
      ensures Now() == Refreshed(old(Now()), newPos, newPpos)
    {
      if newPos.Some? { pos := newPos.value; }
      if newPpos.Some? && (newPpos.value != map[] || ppos == map[]) { ppos := newPpos.value; }
    }

    method TakeTake(a: Attempt) returns (sent: bool)
      modifies this
      ensures Now() == Remember(old(Now()), a) && sent == Sends(old(Now()), a)
    {
      if !a.worth || a.now - At(lastFire, a.rel) < COOLDOWN { return false; }
      var held := Max(Max(At(pos, a.ticker), At(ppos, a.slug)), Count(fired, a.slug) as real);
      var size := Least(Least(CAP - held.Floor, a.depth), MAX_CLIP);
      if size < 1 { return false; }
      lastFire := lastFire[a.rel := a.now];
      if !a.allowed || !a.gateways { return false; }
      if a.outcome.PlaceRaised? { return true; }
      if a.outcome.filled < 1 {
        fired := fired[a.slug := Count(fired, a.slug) + size];
        return true;
      }
      if a.outcome.hedgeRaised { return true; }
      pos := pos[a.ticker := held.Floor as real + a.outcome.filled as real];
      fired := fired[a.slug := Count(fired, a.slug) + a.outcome.filled];
      return true;
    }
  }

  // ---------- the cap ----------

  /** The venue fills at most what was sent, and no read is ahead of it. */
  predicate Possible(s: State, e: Event) {
    e.Fire? && Sends(s.m, e.a) ==>
      e.a.outcome.truth <= Size(s.m, e.a) && (e.a.outcome.Read? ==> e.a.outcome.filled <= e.a.outcome.truth)
  }

  /** What the first leg filled was credited: the read was complete, or so early that the whole size was
      assumed, and the second leg did not raise after a partial or full read. */
  predicate Accounted(s: State, e: Event) {
    e.Fire? && Sends(s.m, e.a) ==>
      match e.a.outcome
      case PlaceRaised(truth) => truth == 0
      case Read(filled, truth, hedgeRaised) => truth == 0 || filled < 1 || (!hedgeRaised && filled == truth)
  }

  /** Nothing the venue holds from this path is missing from the count. */
  ghost predicate Covered(s: State) {
    forall slug :: Count(s.truth, slug) <= Count(s.m.fired, slug)
  }

  function Exec(s: State, es: seq<Event>): State {
    if es == [] then s else Step(Exec(s, es[..|es| - 1]), es[|es| - 1])
  }

  predicate Legal(s: State, es: seq<Event>) {
    es == [] || (Legal(s, es[..|es| - 1]) && Possible(Exec(s, es[..|es| - 1]), es[|es| - 1]))
  }

  predicate AllAccounted(s: State, es: seq<Event>) {
    es == [] || (AllAccounted(s, es[..|es| - 1]) && Accounted(Exec(s, es[..|es| - 1]), es[|es| - 1]))
  }

  lemma SentWithinCap(m: Memory, a: Attempt)
    ensures Size(m, a) <= CAP - Count(m.fired, a.slug)
  {
    assert Position(m, a).Floor >= Count(m.fired, a.slug);
  }

  /** What an attempt that was sent adds to the count. */
  function Credited(m: Memory, a: Attempt): int {
    match a.outcome
    case PlaceRaised(_) => 0
    case Read(filled, _, hedgeRaised) => if filled < 1 then Size(m, a) else if hedgeRaised then 0 else filled
  }

  lemma FireCredits(m: Memory, a: Attempt)
    requires Sends(m, a)
    ensures forall slug ::
      Count(Remember(m, a).fired, slug) == Count(m.fired, slug) + if slug == a.slug then Credited(m, a) else 0
  {}

  /** The venue stays covered by the count exactly when what the attempt filled beyond what it credited is
      covered by what the count showed beyond the truth; from an exact count, when it was accounted. */
  lemma CoveredIff(s: State, e: Event)
    requires Covered(s) && Possible(s, e)
    ensures Covered(Step(s, e)) <==>
      (e.Fire? && Sends(s.m, e.a) ==>
        e.a.outcome.truth - Credited(s.m, e.a) <= Count(s.m.fired, e.a.slug) - Count(s.truth, e.a.slug))
    ensures e.Fire? && Count(s.truth, e.a.slug) == Count(s.m.fired, e.a.slug) ==>
      (Covered(Step(s, e)) <==> Accounted(s, e))
  {
    var t := Step(s, e);
    if e.Fire? {
      if Sends(s.m, e.a) { FireCredits(s.m, e.a); }
      forall slug | slug != e.a.slug ensures Count(t.truth, slug) <= Count(t.m.fired, slug) {
        assert Count(s.truth, slug) <= Count(s.m.fired, slug);
      }
      assert Covered(t) <==> Count(t.truth, e.a.slug) <= Count(t.m.fired, e.a.slug);
      assert Count(s.truth, e.a.slug) <= Count(s.m.fired, e.a.slug);
    } else {
      forall slug ensures Count(t.truth, slug) <= Count(t.m.fired, slug) {
        assert Count(s.truth, slug) <= Count(s.m.fired, slug);
      }
    }
  }

  lemma StepCapped(s: State, e: Event)
    requires Covered(s) && Possible(s, e) && Accounted(s, e)
    ensures Covered(Step(s, e))
    ensures forall slug ::
      Count(Step(s, e).truth, slug) <= if Count(s.truth, slug) > CAP then Count(s.truth, slug) else CAP
  {
    var t := Step(s, e);
    forall slug ensures Count(t.truth, slug) <= Count(t.m.fired, slug) {
      assert Count(s.truth, slug) <= Count(s.m.fired, slug);
    }
    if e.Fire? {
      SentWithinCap(s.m, e.a);
      assert Count(s.truth, e.a.slug) <= Count(s.m.fired, e.a.slug);
    }
  }

  // ---------- what is sent, and what is remembered ----------

  /** n contracts fit: the top of the book has them, a clip allows them, and none of the three counts of the
      position would exceed the cap with them, whole contracts of it counting. */
  predicate Fits(m: Memory, a: Attempt, n: int) {
    && n <= a.depth && n <= 100
    && At(m.pos, a.ticker).Floor + n <= 50 && At(m.ppos, a.slug).Floor + n <= 50 && Count(m.fired, a.slug) + n <= 50
  }

  lemma FloorOfMax(x: real, y: real)
    ensures Max(x, y).Floor == if x.Floor >= y.Floor then x.Floor else y.Floor
  {}

  /** The size is the greatest that fits, and an order is sent exactly when the tick is worth it, thirty seconds
      have passed since the last attempt, one contract fits, the risk gate allows it and both gateways exist. */
  lemma SizeIsGreatest(m: Memory, a: Attempt, n: int)
    ensures Fits(m, a, n) <==> n <= Size(m, a)
    ensures Sends(m, a) <==>
      a.worth && a.now >= At(m.lastFire, a.rel) + 30.0 && Fits(m, a, 1) && a.allowed && a.gateways
  {
    FloorOfMax(At(m.pos, a.ticker), At(m.ppos, a.slug));
    FloorOfMax(Max(At(m.pos, a.ticker), At(m.ppos, a.slug)), Count(m.fired, a.slug) as real);
  }

  /** What the three counts together show of the position. */
  function Shown(m: Memory, a: Attempt): int {
    Position(m, a).Floor
  }

  /** The first leg was read as filled and the second was placed. */
  predicate Completes(m: Memory, e: Event) {
    e.Fire? && Sends(m, e.a) && e.a.outcome.Read? && e.a.outcome.filled >= 1 && !e.a.outcome.hedgeRaised
  }

  /** All credits of a run to one market. */
  function Credits(s: State, es: seq<Event>, slug: string): int {
    if es == [] then 0
    else
      var (m, e) := (Exec(s, es[..|es| - 1]).m, es[|es| - 1]);
      Credits(s, es[..|es| - 1], slug) + if e.Fire? && Sends(m, e.a) && e.a.slug == slug then Credited(m, e.a) else 0
  }

  /** The last thing a run learned of the position in an exchange market: a read that succeeded, or an attempt
      completed since, which adds its fill to the largest of the three counts. */
  function LastHeld(s: State, es: seq<Event>, ticker: string): real {
    if es == [] then At(s.m.pos, ticker)
    else
      var (m, e) := (Exec(s, es[..|es| - 1]).m, es[|es| - 1]);
      if e.Refresh? && e.pos.Some? then At(e.pos.value, ticker)
      else if Completes(m, e) && e.a.ticker == ticker then (Shown(m, e.a) + e.a.outcome.filled) as real
      else LastHeld(s, es[..|es| - 1], ticker)
  }

  /** The last read of the other venue that succeeded and was not empty. */
  function LastSeen(was: map<string, real>, es: seq<Event>): map<string, real> {
    if es == [] then was
    else
      var e := es[|es| - 1];
      if e.Refresh? && e.ppos.Some? && e.ppos.value != map[] then e.ppos.value else LastSeen(was, es[..|es| - 1])
  }

  lemma StepRemembers(s: State, e: Event, slug: string, ticker: string)
    ensures var (m, t) := (s.m, Step(s, e).m);
      && Count(t.fired, slug) ==
           Count(m.fired, slug) + (if e.Fire? && Sends(m, e.a) && e.a.slug == slug then Credited(m, e.a) else 0)
      && At(t.pos, ticker) ==
           (if e.Refresh? && e.pos.Some? then At(e.pos.value, ticker)
            else if Completes(m, e) && e.a.ticker == ticker then (Shown(m, e.a) + e.a.outcome.filled) as real
            else At(m.pos, ticker))
      && t.ppos == if e.Refresh? && e.ppos.Some? && e.ppos.value != map[] then e.ppos.value else m.ppos
  {}

  /** What the program remembers after any run: of its own firing, what it started with and every credit since;
      of the exchange, the last it learned; of the other venue, the last read that was not empty, so that an empty
      read never frees room. */
  lemma {:induction false} RunRemembers(s: State, es: seq<Event>, slug: string, ticker: string)
    ensures Count(Exec(s, es).m.fired, slug) == Count(s.m.fired, slug) + Credits(s, es, slug)
    ensures At(Exec(s, es).m.pos, ticker) == LastHeld(s, es, ticker)
    ensures Exec(s, es).m.ppos == LastSeen(s.m.ppos, es)
  {
    if es != [] {
      RunRemembers(s, es[..|es| - 1], slug, ticker);
      StepRemembers(Exec(s, es[..|es| - 1]), es[|es| - 1], slug, ticker);
    }
  }

  // ---------- exactly when the cap holds ----------

  /** The attempt may fill completely without breaking the cap: the counts show what is held, or the book is
      too thin to matter. */
  predicate Safe(s: State, a: Attempt) {
    Count(s.truth, a.slug) <= Shown(s.m, a) || Count(s.truth, a.slug) + a.depth <= CAP
  }

  predicate Fillable(s: State, a: Attempt, o: Outcome) {
    o.truth <= Size(s.m, a) && (o.Read? ==> o.filled <= o.truth)
  }

  /** No reply of the venue to the attempt breaks the cap. */
  ghost predicate RiskFree(s: State, a: Attempt) {
    forall o :: Fillable(s, a, o) ==> Count(Step(s, Fire(a.(outcome := o))).truth, a.slug) <= CAP
  }

  /** An attempt that is sent is free of risk exactly when it is safe. */
  lemma SafeIff(s: State, a: Attempt)
    requires Sends(s.m, a) && Count(s.truth, a.slug) >= 0
    ensures Safe(s, a) <==> Count(s.truth, a.slug) + Size(s.m, a) <= CAP
    ensures Safe(s, a) <==> RiskFree(s, a)
  {
    var worst := PlaceRaised(Size(s.m, a));
    assert Fillable(s, a, worst);
    assert Count(Step(s, Fire(a.(outcome := worst))).truth, a.slug) == Count(s.truth, a.slug) + Size(s.m, a);
    forall o | Fillable(s, a, o)
      ensures Count(Step(s, Fire(a.(outcome := o))).truth, a.slug) == Count(s.truth, a.slug) + o.truth
    {
      assert Size(s.m, a.(outcome := o)) == Size(s.m, a);
    }
  }

  /** Every attempt the run sends is safe. */
  predicate AllSafe(s: State, es: seq<Event>) {
    es == [] || (AllSafe(s, es[..|es| - 1])
                 && var (mid, e) := (Exec(s, es[..|es| - 1]), es[|es| - 1]);
                    e.Fire? && Sends(mid.m, e.a) ==> Safe(mid, e.a))
  }

  ghost predicate Capped(s: State) {
    forall slug :: 0 <= Count(s.truth, slug) <= CAP
  }

  /** At no point of the run could the venue's reply to the attempt at hand break the cap. */
  ghost predicate NeverAtRisk(s: State, es: seq<Event>) {
    forall n :: 0 <= n < |es| && es[n].Fire? && Sends(Exec(s, es[..n]).m, es[n].a) ==>
      RiskFree(Exec(s, es[..n]), es[n].a)
  }

  lemma StepStaysCapped(s: State, e: Event)
    requires Capped(s) && Possible(s, e) && (e.Fire? && Sends(s.m, e.a) ==> Safe(s, e.a))
    ensures Capped(Step(s, e))
  {
    if e.Fire? && Sends(s.m, e.a) {
      assert 0 <= Count(s.truth, e.a.slug);
      SafeIff(s, e.a);
      forall slug ensures 0 <= Count(Step(s, e).truth, slug) <= CAP { assert 0 <= Count(s.truth, slug) <= CAP; }
    } else {
      assert Step(s, e).truth == s.truth;
    }
  }

  /** The cap holds over any run all of whose attempts are safe, whatever the reads returned and whether or
      not the fills were credited. */
  lemma {:induction false} CapHolds(s: State, es: seq<Event>)
    requires Capped(s) && Legal(s, es) && AllSafe(s, es)
    ensures Capped(Exec(s, es))
  {
    if es != [] {
      CapHolds(s, es[..|es| - 1]);
      StepStaysCapped(Exec(s, es[..|es| - 1]), es[|es| - 1]);
    }
  }

  lemma {:induction false} TruthGrows(s: State, es: seq<Event>, slug: string)
    requires Legal(s, es) && Count(s.truth, slug) >= 0
    ensures Count(Exec(s, es).truth, slug) >= Count(s.truth, slug)
  {
    if es != [] { TruthGrows(s, es[..|es| - 1], slug); }
  }

  lemma {:induction false} LegalPrefix(s: State, es: seq<Event>, n: nat)
    requires Legal(s, es) && n <= |es|
    ensures Legal(s, es[..n])
  {
    if n < |es| {
      LegalPrefix(s, es[..|es| - 1], n);
      assert es[..|es| - 1][..n] == es[..n];
    } else {
      assert es[..n] == es;
    }
  }

  /** The n-th attempt of the run is safe. */
  predicate SafeAt(s: State, es: seq<Event>, n: nat)
    requires n < |es|
  {
    es[n].Fire? && Sends(Exec(s, es[..n]).m, es[n].a) ==> Safe(Exec(s, es[..n]), es[n].a)
  }

  lemma {:induction false} AllSafeIff(s: State, es: seq<Event>)
    ensures AllSafe(s, es) <==> forall n :: 0 <= n < |es| ==> SafeAt(s, es, n)
  {
    if es != [] {
      var init := es[..|es| - 1];
      AllSafeIff(s, init);
      forall n | 0 <= n < |init| ensures SafeAt(s, init, n) <==> SafeAt(s, es, n) {
        assert init[..n] == es[..n] && init[n] == es[n];
      }
      assert SafeAt(s, es, |init|) <==>
        (es[|init|].Fire? && Sends(Exec(s, init).m, es[|init|].a) ==> Safe(Exec(s, init), es[|init|].a));
    }
  }

  /** A run is at no point at risk if and only if each attempt it sends is safe: one of the three counts shows
      the whole position, or the top of the book leaves room beside it. */
  lemma {:induction false} CapIff(s: State, es: seq<Event>)
    requires Capped(s) && Legal(s, es)
    ensures NeverAtRisk(s, es) <==> AllSafe(s, es)
    ensures NeverAtRisk(s, es) ==> Capped(Exec(s, es))
  {
    forall n | 0 <= n < |es| && es[n].Fire? && Sends(Exec(s, es[..n]).m, es[n].a)
      ensures SafeAt(s, es, n) <==> RiskFree(Exec(s, es[..n]), es[n].a)
    {
      assert 0 <= Count(s.truth, es[n].a.slug);
      LegalPrefix(s, es, n);
      TruthGrows(s, es[..n], es[n].a.slug);
      SafeIff(Exec(s, es[..n]), es[n].a);
    }
    AllSafeIff(s, es);
    if AllSafe(s, es) { CapHolds(s, es); }
  }

  /** Crediting every fill is enough: then the program's own count shows the whole position, whatever the
      position reads return, empty ones included. */
  lemma {:induction false} CreditedIsSafe(s: State, es: seq<Event>)
    requires Covered(s) && Legal(s, es) && AllAccounted(s, es)
    ensures Covered(Exec(s, es)) && AllSafe(s, es)
  {
    if es != [] {
      var (mid, e) := (Exec(s, es[..|es| - 1]), es[|es| - 1]);
      CreditedIsSafe(s, es[..|es| - 1]);
      StepCapped(mid, e);
      if e.Fire? { assert Count(mid.truth, e.a.slug) <= Count(mid.m.fired, e.a.slug) <= Shown(mid.m, e.a); }
    }
  }

  /** A cap that breaks: the second leg raises, so what the first leg filled is not credited; the next
      position read fails; and once the cooldown is over the cap is used again. */
  lemma CapCanBeBroken() returns (es: seq<Event>)
    ensures var s := State(Memory(map[], map[], map[], map[]), map[]);
      Capped(s) && Legal(s, es) && Count(Exec(s, es).truth, "m") == 2 * CAP
  {
    var s := State(Memory(map[], map[], map[], map[]), map[]);
    var first := Fire(Attempt("r", "k", "m", 100.0, true, 50, true, true, Read(50, 50, true)));
    var failed := Refresh(None, None);
    var second := Fire(Attempt("r", "k", "m", 135.0, true, 50, true, true, Read(50, 50, true)));
    es := [first, failed, second];
    assert es[..2] == [first, failed] && [first, failed][..1] == [first] && [first][..0] == [];
    assert Position(s.m, first.a) == 0.0 && Size(s.m, first.a) == 50;
    var t := Step(s, first);
    assert Exec(s, [first]) == t && Legal(s, [first]);
    assert t.m.lastFire == map["r" := 100.0] && t.m.fired == map[] && t.m.pos == map[] && t.m.ppos == map[];
    assert Step(t, failed) == t && Exec(s, [first, failed]) == t && Legal(s, [first, failed]);
    assert Position(t.m, second.a) == 0.0 && Size(t.m, second.a) == 50;
    assert Exec(s, es) == Step(t, second);
  }

  /** And an uncredited fill that breaks nothing: ten contracts, with the cap far away. */
  lemma UncreditedCanBeHarmless() returns (es: seq<Event>)
    ensures var s := State(Memory(map[], map[], map[], map[]), map[]);
      Legal(s, es) && !AllAccounted(s, es) && !Covered(Exec(s, es)) && AllSafe(s, es) && Capped(Exec(s, es))
  {
    var s := State(Memory(map[], map[], map[], map[]), map[]);
    var only := Fire(Attempt("r", "k", "m", 100.0, true, 10, true, true, Read(10, 10, true)));
    es := [only];
    assert es[..0] == [];
    assert Position(s.m, only.a) == 0.0 && Size(s.m, only.a) == 10;
    assert Exec(s, es) == Step(s, only);
    assert Count(Step(s, only).truth, "m") == 10 && Count(Step(s, only).m.fired, "m") == 0;
    CapHolds(s, es);
  }

  // ---------- the cooldown ----------

  /** The attempt reaches the gate, whatever comes of it: it is sent, refused by the risk gate, or lacks a
      gateway. Only then does it count against the next one. */
  predicate Reaches(s: State, e: Event, rel: string) {
    && e.Fire? && e.a.rel == rel && e.a.worth
    && e.a.now - At(s.m.lastFire, rel) >= COOLDOWN && Size(s.m, e.a) >= 1
  }

  predicate ReachesAt(s: State, es: seq<Event>, k: nat, rel: string)
    requires k < |es|
  {
    Reaches(Exec(s, es[..k]), es[k], rel)
  }

  /** What is sent reached the gate. */
  lemma SentReaches(s: State, e: Event)
    requires e.Fire? && Sends(s.m, e.a)
    ensures Reaches(s, e, e.a.rel)
  {}

  /** The clock of the attempts does not run back. */
  ghost predicate Clocked(es: seq<Event>) {
    forall i, k :: 0 <= i < k < |es| && es[i].Fire? && es[k].Fire? ==> es[i].a.now <= es[k].a.now
  }

  lemma StepStamps(s: State, e: Event, rel: string)
    ensures At(Step(s, e).m.lastFire, rel) == if Reaches(s, e, rel) then e.a.now else At(s.m.lastFire, rel)
  {}

  lemma RunStep(s: State, es: seq<Event>, k: nat)
    requires k < |es|
    ensures Exec(s, es[..k + 1]) == Step(Exec(s, es[..k]), es[k])
  {
    assert es[..k + 1][..k] == es[..k];
  }

  /** After an attempt at the gate its time is remembered, or that of a later one. */
  lemma {:induction false} StampStays(s: State, es: seq<Event>, i: nat, k: nat, rel: string)
    requires i < k <= |es| && Clocked(es) && ReachesAt(s, es, i, rel)
    ensures At(Exec(s, es[..k]).m.lastFire, rel) >= es[i].a.now
    decreases k
  {
    RunStep(s, es, k - 1);
    StepStamps(Exec(s, es[..k - 1]), es[k - 1], rel);
    if i < k - 1 { StampStays(s, es, i, k - 1, rel); }
  }

  /** Any two attempts of one relationship that reach the gate are at least thirty seconds apart, whatever
      refreshes and other attempts come between. */
  lemma AttemptsAreApart(s: State, es: seq<Event>, i: nat, k: nat, rel: string)
    requires i < k < |es| && Clocked(es) && ReachesAt(s, es, i, rel) && ReachesAt(s, es, k, rel)
    ensures es[k].a.now - es[i].a.now >= 30.0
  {
    StampStays(s, es, i, k, rel);
  }

  /** In particular any two orders sent for it. */
  lemma OrdersAreApart(s: State, es: seq<Event>, i: nat, k: nat)
    requires i < k < |es| && Clocked(es) && es[i].Fire? && es[k].Fire? && es[i].a.rel == es[k].a.rel
    requires Sends(Exec(s, es[..i]).m, es[i].a) && Sends(Exec(s, es[..k]).m, es[k].a)
    ensures es[k].a.now - es[i].a.now >= 30.0
  {
    SentReaches(Exec(s, es[..i]), es[i]);
    SentReaches(Exec(s, es[..k]), es[k]);
    AttemptsAreApart(s, es, i, k, es[i].a.rel);
  }

  /** How many of the first k events reach the gate for the relationship. */
  function Attempts(s: State, es: seq<Event>, k: nat, rel: string): nat
    requires k <= |es|
  {
    if k == 0 then 0 else Attempts(s, es, k - 1, rel) + if ReachesAt(s, es, k - 1, rel) then 1 else 0
  }

  lemma {:induction false} NoneBefore(s: State, es: seq<Event>, i: nat, rel: string)
    requires i <= |es| && forall j :: 0 <= j < i ==> !ReachesAt(s, es, j, rel)
    ensures Attempts(s, es, i, rel) == 0
  {
    if i > 0 { NoneBefore(s, es, i - 1, rel); }
  }

  /** So n attempts, of which the first is event i, take at least n - 1 times thirty seconds. */
  lemma {:induction false} AttemptsTakeTime(s: State, es: seq<Event>, i: nat, k: nat, rel: string)
    requires i < k <= |es| && Clocked(es) && ReachesAt(s, es, i, rel)
    requires forall j :: 0 <= j < i ==> !ReachesAt(s, es, j, rel)
    ensures At(Exec(s, es[..k]).m.lastFire, rel) - es[i].a.now >= (Attempts(s, es, k, rel) - 1) as real * 30.0
    decreases k
  {
    RunStep(s, es, k - 1);
    StepStamps(Exec(s, es[..k - 1]), es[k - 1], rel);
    if i == k - 1 {
      NoneBefore(s, es, i, rel);
    } else {
      AttemptsTakeTime(s, es, i, k - 1, rel);
    }
  }
}
