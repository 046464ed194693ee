/** Order books rebuilt from snapshots and deltas (src/arbbot/book/builder.py), and the tolerant
    dictionary replay of the same stream (scripts/fill_quality.py). */
module Books {
  import opened Core

  datatype Side = Bid | Ask

  datatype Level = Level(price: real, size: real)

  /** A market is addressed by (venue, market id). */
  type Market = (string, string)

  datatype Book = Book(bids: seq<Level>, asks: seq<Level>, seqNo: int, tsLocal: int)

  datatype Event =
    | Snapshot(market: Market, bids: seq<Level>, asks: seq<Level>, seqNo: int, ts: int)
    | Delta(market: Market, side: Side, price: real, size: real, seqNo: int, ts: int)
    | Trade(market: Market, ts: int)

  // ---------- sorted ladders ----------

  /** Bids rank from the highest price down, asks from the lowest up. */
  predicate Better(side: Side, p: real, q: real) {
    if side.Bid? then p > q else p < q
  }

  ghost predicate Strict(side: Side, ls: seq<Level>) {
    forall i, j :: 0 <= i < j < |ls| ==> Better(side, ls[i].price, ls[j].price)
  }

  ghost predicate Sorted(side: Side, ls: seq<Level>) {
    forall i, j :: 0 <= i < j < |ls| ==> !Better(side, ls[j].price, ls[i].price)
  }

  ghost predicate UniquePrices(ls: seq<Level>) {
    forall i, j :: 0 <= i < j < |ls| ==> ls[i].price != ls[j].price
  }

  function Insert(side: Side, l: Level, ls: seq<Level>): seq<Level> {
    if ls == [] || !Better(side, ls[0].price, l.price) then [l] + ls
    else [ls[0]] + Insert(side, l, ls[1..])
  }

  /** The stable library sort by price. */
  function Sort(side: Side, ls: seq<Level>): seq<Level> {
    if ls == [] then [] else Insert(side, ls[0], Sort(side, ls[1..]))
  }

  function Without(ls: seq<Level>, price: real): seq<Level> {
    if ls == [] then []
    else (if ls[0].price != price then [ls[0]] else []) + Without(ls[1..], price)
  }

  lemma {:induction false} InsertAdds(side: Side, l: Level, ls: seq<Level>)
    ensures multiset(Insert(side, l, ls)) == multiset(ls) + multiset{l}
  {
    if ls == [] || !Better(side, ls[0].price, l.price) {
      assert multiset([l] + ls) == multiset{l} + multiset(ls);
    } else {
      InsertAdds(side, l, ls[1..]);
      assert ls == [ls[0]] + ls[1..];
      assert multiset([ls[0]] + Insert(side, l, ls[1..])) == multiset{ls[0]} + multiset(Insert(side, l, ls[1..]));
    }
  }

  lemma {:induction false} InsertSorts(side: Side, l: Level, ls: seq<Level>)
    requires Sorted(side, ls)
    ensures Sorted(side, Insert(side, l, ls))
    ensures multiset(Insert(side, l, ls)) == multiset(ls) + multiset{l}
  {
    InsertAdds(side, l, ls);
    if ls != [] && Better(side, ls[0].price, l.price) {
      var rest := Insert(side, l, ls[1..]);
      InsertSorts(side, l, ls[1..]);
      forall j | 0 <= j < |rest| ensures !Better(side, rest[j].price, ls[0].price) {
        assert rest[j] in multiset(rest);
        assert rest[j] == l || rest[j] in multiset(ls[1..]);
        if rest[j] != l { assert rest[j] in ls[1..]; }
      }
    }
  }

  lemma {:induction false} SortSorts(side: Side, ls: seq<Level>)
    ensures Sorted(side, Sort(side, ls))
    ensures multiset(Sort(side, ls)) == multiset(ls)
  {
    if ls != [] {
      SortSorts(side, ls[1..]);
      InsertSorts(side, ls[0], Sort(side, ls[1..]));
      assert ls == [ls[0]] + ls[1..];
    }
  }

  // ---------- a ladder as a price-to-size map ----------

  /** The ladder holds exactly the map's entries, one level per price. */
  ghost predicate Represents(ls: seq<Level>, m: map<real, real>) {
    && UniquePrices(ls)
    && (forall l :: l in ls ==> l.price in m && m[l.price] == l.size)
    && (forall p :: p in m ==> Level(p, m[p]) in ls)
  }

  ghost predicate OnePerPrice(m: multiset<Level>) {
    forall a, b :: a in m && b in m && a.price == b.price ==> a == b && m[a] == 1
  }

  lemma UniqueIsHeadAndTail(ls: seq<Level>)
    requires ls != []
    ensures UniquePrices(ls) <==> UniquePrices(ls[1..]) && forall l :: l in ls[1..] ==> l.price != ls[0].price
  {
    var t := ls[1..];
    forall i | 1 <= i < |ls| ensures ls[i] == t[i - 1] {}
    if UniquePrices(ls) {
      forall i, j | 0 <= i < j < |t| ensures t[i].price != t[j].price { assert ls[i + 1].price != ls[j + 1].price; }
    }
  }

  lemma OnePerPriceIsHeadAndTail(l: Level, m: multiset<Level>)
    ensures OnePerPrice(m + multiset{l}) <==> OnePerPrice(m) && forall x :: x in m ==> x.price != l.price
  {
    var all := m + multiset{l};
    if OnePerPrice(all) {
      forall x | x in m ensures x.price != l.price {
        assert x in all && l in all && all[l] == m[l] + 1;
      }
      forall a, b | a in m && b in m && a.price == b.price ensures a == b && m[a] == 1 {
        assert a in all && b in all && all[a] >= m[a];
      }
    }
  }

  /** Uniqueness of prices is a property of the multiset of levels. */
  lemma {:induction false} UniqueIsOnePerPrice(ls: seq<Level>)
    ensures UniquePrices(ls) <==> OnePerPrice(multiset(ls))
  {
    if ls != [] {
      UniqueIsOnePerPrice(ls[1..]);
      UniqueIsHeadAndTail(ls);
      OnePerPriceIsHeadAndTail(ls[0], multiset(ls[1..]));
      assert ls == [ls[0]] + ls[1..];
      assert multiset(ls) == multiset(ls[1..]) + multiset{ls[0]};
      assert forall l :: l in ls[1..] <==> l in multiset(ls[1..]);
    }
  }

  lemma StrictIsSortedUnique(side: Side, ls: seq<Level>)
    ensures Strict(side, ls) <==> Sorted(side, ls) && UniquePrices(ls)
  {}

  /** Sorting keeps the represented map, and is strict exactly because prices are unique. */
  lemma SortRepresents(side: Side, ls: seq<Level>, m: map<real, real>)
    requires Represents(ls, m)
    ensures Represents(Sort(side, ls), m)
    ensures Strict(side, Sort(side, ls))
  {
    var out := Sort(side, ls);
    SortSorts(side, ls);
    UniqueIsOnePerPrice(ls);
    UniqueIsOnePerPrice(out);
    StrictIsSortedUnique(side, out);
    forall l ensures l in out <==> l in ls {
      assert l in out <==> l in multiset(out);
      assert l in ls <==> l in multiset(ls);
    }
  }

  lemma {:induction false} WithoutDrops(ls: seq<Level>, price: real)
    ensures forall l :: l in Without(ls, price) <==> l in ls && l.price != price
    ensures UniquePrices(ls) ==> UniquePrices(Without(ls, price))
  {
    if ls != [] {
      WithoutDrops(ls[1..], price);
      assert ls == [ls[0]] + ls[1..];
      var rest := Without(ls[1..], price);
      if UniquePrices(ls) {
        assert UniquePrices(ls[1..]) by {
          forall i, j | 0 <= i < j < |ls[1..]| ensures ls[1..][i].price != ls[1..][j].price {
            assert ls[i + 1].price != ls[j + 1].price;
          }
        }
        forall j | 0 <= j < |rest| ensures rest[j].price != ls[0].price {
          assert rest[j] in ls[1..];
          var k :| 0 <= k < |ls[1..]| && ls[1..][k] == rest[j];
          assert ls[0].price != ls[k + 1].price;
        }
      }
    }
  }

  // ---------- one delta on one side ----------

  /** New total size at a price; zero or less removes the level. */
  function SetSize(m: map<real, real>, price: real, size: real): map<real, real> {
    if size > 0.0 then m[price := size] else m - {price}
  }

  function SetLevel(side: Side, ls: seq<Level>, price: real, size: real): seq<Level> {
    Sort(side, Without(ls, price) + if size > 0.0 then [Level(price, size)] else [])
  }

  lemma SetLevelRepresents(side: Side, ls: seq<Level>, m: map<real, real>, price: real, size: real)
    requires Represents(ls, m)
    ensures Represents(SetLevel(side, ls, price, size), SetSize(m, price, size))
    ensures Strict(side, SetLevel(side, ls, price, size))
  {
    var kept := Without(ls, price);
    WithoutDrops(ls, price);
    var next := kept + if size > 0.0 then [Level(price, size)] else [];
    var m' := SetSize(m, price, size);
    assert UniquePrices(next) by {
      forall i, j | 0 <= i < j < |next| ensures next[i].price != next[j].price {
        assert next[i] in kept;
        if j < |kept| { assert kept[i].price != kept[j].price; }
      }
    }
    forall l | l in next ensures l.price in m' && m'[l.price] == l.size {
      assert l in kept || l == Level(price, size);
    }
    forall p | p in m' ensures Level(p, m'[p]) in next {
      if p != price { assert Level(p, m[p]) in kept; }
    }
    SortRepresents(side, next, m');
  }

  function FromSnapshot(e: Event): Book
    requires e.Snapshot?
  {
    Book(Sort(Bid, e.bids), Sort(Ask, e.asks), e.seqNo, e.ts)
  }

  function WithDelta(b: Book, e: Event): Book
    requires e.Delta?
  {
    if e.side.Bid?
    then Book(SetLevel(Bid, b.bids, e.price, e.size), b.asks, e.seqNo, e.ts)
    else Book(b.bids, SetLevel(Ask, b.asks, e.price, e.size), e.seqNo, e.ts)
  }

  /** What one event does to the books a builder holds; the outcome of a delta is in ApplyDelta. */
  function Step(books: map<Market, Book>, e: Event): map<Market, Book> {
    match e
    case Snapshot(m, _, _, _, _) => books[m := FromSnapshot(e)]
    case Trade(_, _) => books
    case Delta(m, _, _, _, n, _) =>
      if m !in books || n <= books[m].seqNo then books
      else if n != books[m].seqNo + 1 then books - {m}
      else books[m := WithDelta(books[m], e)]
  }

  function Run(books: map<Market, Book>, es: seq<Event>): map<Market, Book> {
    if es == [] then books else Step(Run(books, es[..|es| - 1]), es[|es| - 1])
  }

  datatype DeltaOutcome = Updated(book: Book) | Stale | NotSynced | GapDetected(expected: int, got: int)

  class BookBuilder {
    var books: map<Market, Book>

    constructor ()
      ensures books == map[]
    {
      books := map[];
    }

    method Get(market: Market) returns (b: Option<Book>)
      ensures b == if market in books then Some(books[market]) else None
    {
      if market in books { b := Some(books[market]); } else { b := None; }
    }

    method ApplySnapshot(e: Event) returns (b: Book)
      requires e.Snapshot?
      modifies this
      ensures books == Step(old(books), e) && e.market in books && b == books[e.market]
    {
      b := FromSnapshot(e);
      books := books[e.market := b];
    }

    method ApplyDelta(e: Event) returns (r: DeltaOutcome)
      requires e.Delta?
      modifies this
      ensures books == Step(old(books), e)
      ensures r.NotSynced? <==> e.market !in old(books)
      ensures r.Stale? <==> e.market in old(books) && e.seqNo <= old(books)[e.market].seqNo
      ensures r.GapDetected? <==> e.market in old(books) && e.seqNo > old(books)[e.market].seqNo + 1
      ensures r.GapDetected? ==>
        e.market !in books && r.got == e.seqNo && r.expected == old(books)[e.market].seqNo + 1
      ensures r.Updated? ==> e.market in books && books[e.market] == r.book && r.book.seqNo == e.seqNo
    {
      if e.market !in books { return NotSynced; }
      var book := books[e.market];
      if e.seqNo <= book.seqNo { return Stale; }
      if e.seqNo != book.seqNo + 1 {
        books := books - {e.market};
        return GapDetected(book.seqNo + 1, e.seqNo);
      }
      var levels := if e.side.Bid? then book.bids else book.asks;
      levels := Without(levels, e.price);
      if e.size > 0.0 {
        levels := levels + [Level(e.price, e.size)];
      } else {
        assert levels + [] == levels;
      }
      levels := Sort(e.side, levels);
      var next := if e.side.Bid? then book.(bids := levels, seqNo := e.seqNo, tsLocal := e.ts)
                  else book.(asks := levels, seqNo := e.seqNo, tsLocal := e.ts);
      books := books[e.market := next];
      return Updated(next);
    }

    method IsCrossed(market: Market) returns (crossed: bool)
      ensures crossed <==> market in books && Crossed(books[market])
    {
      if market !in books || books[market].bids == [] || books[market].asks == [] { return false; }
      return books[market].bids[0].price >= books[market].asks[0].price;
    }
  }

  predicate Crossed(b: Book) {
    b.bids != [] && b.asks != [] && b.bids[0].price >= b.asks[0].price
  }

  // ---------- the venue behind a lossy channel ----------

  datatype SideBooks = SideBooks(bids: map<real, real>, asks: map<real, real>)

  datatype Change = Change(side: Side, price: real, size: real)

  function Apply(b: SideBooks, c: Change): SideBooks {
    if c.side.Bid? then b.(bids := SetSize(b.bids, c.price, c.size))
    else b.(asks := SetSize(b.asks, c.price, c.size))
  }

  /** The venue's true book per market and sequence number, and the change that led to it. */
  datatype World = World(book: (Market, int) -> SideBooks, change: (Market, int) -> Change)

  ghost predicate Coherent(w: World) {
    forall m: Market, k: int :: w.book(m, k) == Apply(w.book(m, k - 1), w.change(m, k))
  }

  /** The message is one the venue really sent; which of them arrive, how often and in what order
      is up to the channel. */
  ghost predicate Sent(w: World, e: Event) {
    match e
    case Snapshot(m, bids, asks, n, _) =>
      Represents(bids, w.book(m, n).bids) && Represents(asks, w.book(m, n).asks)
    case Delta(m, side, price, size, n, _) => w.change(m, n) == Change(side, price, size)
    case Trade(_, _) => true
  }

  /** The served book is the venue's book at its sequence number, best price first. */
  ghost predicate Truthful(w: World, m: Market, b: Book) {
    && Represents(b.bids, w.book(m, b.seqNo).bids) && Strict(Bid, b.bids)
    && Represents(b.asks, w.book(m, b.seqNo).asks) && Strict(Ask, b.asks)
  }

  lemma StepTruthful(w: World, books: map<Market, Book>, e: Event)
    requires Coherent(w) && Sent(w, e)
    requires forall m :: m in books ==> Truthful(w, m, books[m])
    ensures forall m :: m in Step(books, e) ==> Truthful(w, m, Step(books, e)[m])
  {
    match e {
      case Snapshot(m, bids, asks, n, _) =>
        SortRepresents(Bid, bids, w.book(m, n).bids);
        SortRepresents(Ask, asks, w.book(m, n).asks);
      case Trade(_, _) =>
      case Delta(m, side, price, size, n, _) =>
        if m in books && n == books[m].seqNo + 1 {
          var b := books[m];
          assert w.book(m, n) == Apply(w.book(m, n - 1), w.change(m, n));
          if side.Bid? {
            SetLevelRepresents(Bid, b.bids, w.book(m, n - 1).bids, price, size);
          } else {
            SetLevelRepresents(Ask, b.asks, w.book(m, n - 1).asks, price, size);
          }
        }
    }
  }

  /** Whatever is dropped, duplicated or reordered, no wrong book is ever served. */
  lemma {:induction false} LossyChannelSafety(w: World, es: seq<Event>)
    requires Coherent(w)
    requires forall e :: e in es ==> Sent(w, e)
    ensures forall m :: m in Run(map[], es) ==> Truthful(w, m, Run(map[], es)[m])
  {
    if es != [] {
      var es' := es[..|es| - 1];
      assert forall e :: e in es' ==> e in es;
      LossyChannelSafety(w, es');
      StepTruthful(w, Run(map[], es'), es[|es| - 1]);
    }
  }

  /** Some bid of the venue is at or above some ask. */
  ghost predicate Overlaps(b: SideBooks) {
    exists p, q :: p in b.bids && q in b.asks && p >= q
  }

  /** A served book is crossed exactly when the venue's was, at the book's sequence number: never through a
      fault of the channel. */
  lemma CrossedIffOverlaps(w: World, m: Market, b: Book)
    requires Truthful(w, m, b)
    ensures Crossed(b) <==> Overlaps(w.book(m, b.seqNo))
  {
    var venue := w.book(m, b.seqNo);
    if Crossed(b) {
      assert b.bids[0] in b.bids && b.asks[0] in b.asks;
      assert b.bids[0].price in venue.bids && b.asks[0].price in venue.asks;
    }
    if p, q :| p in venue.bids && q in venue.asks && p >= q {
      var i :| 0 <= i < |b.bids| && b.bids[i] == Level(p, venue.bids[p]);
      var k :| 0 <= k < |b.asks| && b.asks[k] == Level(q, venue.asks[q]);
      assert b.bids[0].price >= p && b.asks[0].price <= q;
    }
  }

  ghost predicate SnapshotFor(e: Event, m: Market) {
    e.Snapshot? && e.market == m
  }

  /** A gap silences the market: nothing is served for it until a snapshot of it arrives. */
  lemma {:induction false} SilentUntilSnapshot(books: map<Market, Book>, e: Event, m: Market, es: seq<Event>)
    requires e.Delta? && e.market == m && m in books && e.seqNo > books[m].seqNo + 1
    requires forall x :: x in es ==> !SnapshotFor(x, m)
    ensures m !in Run(Step(books, e), es)
  {
    if es != [] {
      var es' := es[..|es| - 1];
      assert forall x :: x in es' ==> x in es;
      SilentUntilSnapshot(books, e, m, es');
      assert !SnapshotFor(es[|es| - 1], m);
    }
  }

  /** The deltas n+1, n+2, ... of market m, in order and without loss. */
  ghost predicate Consecutive(es: seq<Event>, m: Market, n: int) {
    forall i :: 0 <= i < |es| ==> es[i].Delta? && es[i].market == m && es[i].seqNo == n + 1 + i
  }

  /** A faithful channel is never punished: consecutive deltas after a snapshot keep the market synced
      up to the last of them. */
  lemma {:induction false} FaithfulChannelStaysSynced(books: map<Market, Book>, m: Market, es: seq<Event>)
    requires m in books && Consecutive(es, m, books[m].seqNo)
    ensures m in Run(books, es) && Run(books, es)[m].seqNo == books[m].seqNo + |es|
  {
    if es != [] {
      FaithfulChannelStaysSynced(books, m, es[..|es| - 1]);
    }
  }

  // ---------- the tolerant replay ----------

  /** A level list read into a dictionary; the last entry of a price wins. */
  function Dict(ls: seq<Level>): map<real, real> {
    if ls == [] then map[] else Dict(ls[..|ls| - 1])[ls[|ls| - 1].price := ls[|ls| - 1].size]
  }

  datatype Replay = Replay(bids: map<real, real>, asks: map<real, real>, seqNo: int, synced: bool)

  const INITIAL_REPLAY := Replay(map[], map[], -1, false)

  function ReplayStep(r: Replay, e: Event): Replay {
    match e
    case Snapshot(_, bids, asks, n, _) => Replay(Dict(bids), Dict(asks), n, true)
    case Trade(_, _) => r
    case Delta(_, side, price, size, n, _) =>
      if !r.synced || n <= r.seqNo then r
      else if n != r.seqNo + 1 then r.(synced := false)
      else if side.Bid? then r.(bids := SetSize(r.bids, price, size), seqNo := n)
      else r.(asks := SetSize(r.asks, price, size), seqNo := n)
  }

  function ReplayRun(es: seq<Event>): Replay {
    if es == [] then INITIAL_REPLAY else ReplayStep(ReplayRun(es[..|es| - 1]), es[|es| - 1])
  }

  class KalshiReplay {
    const events: seq<Event>
    var i: nat
    var bids: map<real, real>
    var asks: map<real, real>
    var seqNo: int
    var synced: bool

    ghost predicate Valid()
      reads this
    {
      i <= |events| && Replay(bids, asks, seqNo, synced) == ReplayRun(events[..i])
    }

    constructor (events: seq<Event>)
      ensures Valid() && this.events == events && i == 0
    {
      this.events := events;
      i, bids, asks, seqNo, synced := 0, map[], map[], -1, false;
    }

    method StepOnce()
      requires Valid() && i < |events|
      modifies this
      ensures Valid() && i == old(i) + 1
    {
      var e := events[i];
      assert events[..i + 1][..i] == events[..i];
      match e {
        case Snapshot(_, bs, ks, n, _) =>
          bids, asks, seqNo, synced := Dict(bs), Dict(ks), n, true;
        case Trade(_, _) =>
        case Delta(_, side, price, size, n, _) =>
          if !synced || n <= seqNo {
          } else if n != seqNo + 1 {
            synced := false;
          } else {
            if side.Bid? {
              bids := if size > 0.0 then bids[price := size] else bids - {price};
            } else {
              asks := if size > 0.0 then asks[price := size] else asks - {price};
            }
            seqNo := n;
          }
      }
      i := i + 1;
    }

    method AdvanceIndex(until: nat)
      requires Valid()
      modifies this
      ensures i == if old(i) < until then (if until < |events| then until else |events|) else old(i)
      ensures Valid() && Replay(bids, asks, seqNo, synced) == ReplayRun(events[..i])
    {
      while i < until && i < |events|
        invariant Valid() && old(i) <= i
        invariant i <= until || i == old(i)
      {
        StepOnce();
      }
    }
  }

  lemma {:induction false} DictKeys(ls: seq<Level>)
    ensures forall p :: p in Dict(ls) ==> Level(p, Dict(ls)[p]) in ls
    ensures forall l :: l in ls ==> l.price in Dict(ls)
  {
    if ls != [] {
      DictKeys(ls[..|ls| - 1]);
      assert ls == ls[..|ls| - 1] + [ls[|ls| - 1]];
    }
  }

  /** A snapshot side reads the same as a sorted ladder and as a dictionary exactly when its prices are
      unique. */
  lemma SnapshotSideAgreesIff(side: Side, ls: seq<Level>)
    ensures Represents(Sort(side, ls), Dict(ls)) <==> UniquePrices(ls)
  {
    UniqueIsOnePerPrice(ls);
    UniqueIsOnePerPrice(Sort(side, ls));
    SortSorts(side, ls);
    if UniquePrices(ls) {
      DictKeys(ls);
      forall l | l in ls ensures l.price in Dict(ls) && Dict(ls)[l.price] == l.size {
        assert l in multiset(ls) && Level(l.price, Dict(ls)[l.price]) in multiset(ls);
      }
      SortRepresents(side, ls, Dict(ls));
    }
  }

  ghost predicate Agree(books: map<Market, Book>, m: Market, r: Replay) {
    && (r.synced <==> m in books)
    && (r.synced ==>
      r.seqNo == books[m].seqNo && Represents(books[m].bids, r.bids) && Represents(books[m].asks, r.asks))
  }

  /** On every stream of one market whose snapshots list each price once per side, the tolerant replay
      is synced exactly when the builder holds a book, and then they agree on number and both sides. */
  lemma {:induction false} TwoReplaysAgree(m: Market, es: seq<Event>)
    requires forall e :: e in es ==> e.market == m
    requires forall e :: e in es && e.Snapshot? ==> UniquePrices(e.bids) && UniquePrices(e.asks)
    ensures Agree(Run(map[], es), m, ReplayRun(es))
  {
    if es != [] {
      var es', e := es[..|es| - 1], es[|es| - 1];
      assert forall x :: x in es' ==> x in es;
      TwoReplaysAgree(m, es');
      var books, r := Run(map[], es'), ReplayRun(es');
      assert e in es;
      match e {
        case Snapshot(_, bids, asks, _, _) =>
          SnapshotSideAgreesIff(Bid, bids);
          SnapshotSideAgreesIff(Ask, asks);
        case Trade(_, _) =>
        case Delta(_, side, price, size, n, _) =>
          if r.synced && n == r.seqNo + 1 {
            if side.Bid? {
              SetLevelRepresents(Bid, books[m].bids, r.bids, price, size);
            } else {
              SetLevelRepresents(Ask, books[m].asks, r.asks, price, size);
            }
          }
      }
    }
  }
}
