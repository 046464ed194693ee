/** The parity check (scripts/import_ledger_to_sqlite.py: check_parity) of the SQL view of open baskets, which
    nets rounded integer columns (src/arbbot/exec/schema.sql: v_open_baskets), against the reference view. */
module LedgerParity {
  import opened Core
  import opened Ledger
  import opened LedgerDb
  import opened LedgerMirror
  import opened LedgerHeal
  import opened LedgerHealing

  const MICRO := 1000000.0

  /** SQL's ROUND: half away from zero. */
  function RoundAway(x: real): int {
    if x >= 0.0 then (x + 0.5).Floor else -(-x + 0.5).Floor
  }

  function OpenQty(row: BasketRow, closed: int): int {
    row.cols.qty - closed
  }

  predicate InView(row: BasketRow, closed: int) {
    !row.cols.voided && OpenQty(row, closed) > 0
  }

  function OpenMoney(u: Option<int>, row: BasketRow, closed: int): int
    requires row.cols.qty > 0
  {
    if u.None? then 0 else RoundAway(Times(u.value as real, OpenQty(row, closed) as real) / row.cols.qty as real)
  }

  /** What the reference view lists for a row. */
  function Listed(row: BasketRow, closed: int): seq<Record> {
    if row.cols.voided then [] else Net(row.raw, closed as real)
  }

  predicate MoneyAgrees(e: Record, f: Field, micro: int) {
    Get(e, f).Num? ==> -1 <= Round(Get(e, f).n * MICRO) - micro <= 1
  }

  /** An entry of the reference and a row of the view under the same key compare equal. */
  predicate SameAmounts(e: Record, row: BasketRow, closed: int)
    requires row.cols.qty > 0
  {
    && QtyOf(e) == OpenQty(row, closed) as real
    && MoneyAgrees(e, Cost, OpenMoney(row.cols.cost, row, closed))
    && MoneyAgrees(e, Payoff, OpenMoney(row.cols.payoff, row, closed))
    && MoneyAgrees(e, Profit, OpenMoney(row.cols.profit, row, closed))
  }

  /** The check has nothing to say of a row: both views list it or neither does, with the same quantity and
      the money within a micro-dollar. */
  predicate Agrees(row: BasketRow, closed: int)
    requires row.cols.qty > 0
  {
    var es := Listed(row, closed);
    && (es != [] <==> InView(row, closed))
    && forall e :: e in es ==> SameAmounts(e, row, closed)
  }

  predicate Integral(q: real) {
    q == q.Floor as real
  }

  lemma RoundIsNear(x: real)
    ensures -0.5 <= Round(x) as real - x <= 0.5 && -0.5 <= RoundAway(x) as real - x <= 0.5
    ensures Integral(x) ==> Round(x) as real == x
  {}

  /** Of two nearest whole numbers the one farther from zero. */
  lemma RoundAwayTies(x: real)
    ensures var d := RoundAway(x) as real - x; (d == 0.5 ==> x > 0.0) && (d == -0.5 ==> x < 0.0)
  {}

  /** Where the check is silent of money, the two amounts are within one and a half micro-dollars. */
  lemma SilentIsClose(e: Record, row: BasketRow, closed: int, f: Field)
    requires row.cols.qty > 0 && SameAmounts(e, row, closed) && f in {Cost, Payoff, Profit} && Get(e, f).Num?
    ensures var shown := if f == Cost then row.cols.cost else if f == Payoff then row.cols.payoff else row.cols.profit;
      -1.5 <= Get(e, f).n * 1000000.0 - OpenMoney(shown, row, closed) as real <= 1.5
  {
    RoundIsNear(Get(e, f).n * MICRO);
  }

  lemma NearRoundsNear(x: real, y: real)
    requires -0.5 <= x - y <= 0.5
    ensures -1 <= Round(y) - RoundAway(x) <= 1
  {
    RoundIsNear(x);
    RoundIsNear(y);
  }

  lemma RoundOfWhole(n: int)
    ensures RoundAway(n as real) == n
  {}

  lemma NearScales(x: real, u: real, f: real)
    requires 0.0 < f <= 1.0 && -0.5 <= u - x <= 0.5
    ensures -0.5 <= Times(u, f) - Times(x, f) <= 0.5
  {
    TimesSubtracts(u, x, f);
    TimesGrows(f, u - x, 0.5);
    TimesGrows(f, -0.5, u - x);
    TimesSwaps(u - x, f, 1.0);
    assert Times(f, 0.5) == 0.5 * f && Times(f, -0.5) == -0.5 * f;
  }

  lemma Rescales(m: real, f: real)
    ensures m * f * MICRO == Times(m * MICRO, f)
  {}

  /** Scaling a rounded amount by a fraction stays as near as the rounding was. */
  lemma ScaledIsNear(m: real, u: int, k: int, n: int)
    requires 0 < k <= n && u == Round(m * MICRO)
    ensures -0.5 <= Times(u as real, k as real) / n as real - m * (k as real / n as real) * MICRO <= 0.5
  {
    RoundIsNear(m * MICRO);
    FractionBelowOne(k as real, n as real);
    NearScales(m * MICRO, u as real, k as real / n as real);
    TimesFraction(u as real, k as real, n as real);
    Rescales(m, k as real / n as real);
  }

  lemma FractionBelowOne(k: real, n: real)
    requires 0.0 < k <= n
    ensures 0.0 < k / n <= 1.0
  {}

  lemma TimesFraction(u: real, k: real, n: real)
    requires n > 0.0
    ensures Times(u, k) / n == Times(u, k / n)
  {}

  lemma NearAgrees(e: Record, f: Field, v: real, y: real)
    requires Get(e, f) == Num(v) && -0.5 <= y - v * MICRO <= 0.5
    ensures MoneyAgrees(e, f, RoundAway(y))
  {
    NearRoundsNear(y, v * MICRO);
  }

  lemma ScaledMoneyAgrees(m: real, frac: real, e: Record, f: Field, k: int, n: int)
    requires 0 < k <= n && frac == k as real / n as real && Get(e, f) == Num(m * frac)
    ensures MoneyAgrees(e, f, RoundAway(Times(Round(m * MICRO) as real, k as real) / n as real))
  {
    ScaledIsNear(m, Round(m * MICRO), k, n);
    NearAgrees(e, f, m * frac, Times(Round(m * MICRO) as real, k as real) / n as real);
  }

  /** One money field of a partly closed row. */
  lemma MoneyScales(row: BasketRow, f: Field, e: Record, closed: int)
    requires Storable(row.raw) && row.cols.qty > closed > 0 && QtyOf(row.raw) == row.cols.qty as real
    requires Get(row.raw, f).Num?
    requires Get(e, f) == Num(Get(row.raw, f).n * ((QtyOf(row.raw) - closed as real) / QtyOf(row.raw)))
    ensures MoneyAgrees(e, f, OpenMoney(Micro(Get(row.raw, f)), row, closed))
  {
    var frac := (QtyOf(row.raw) - closed as real) / QtyOf(row.raw);
    assert QtyOf(row.raw) - closed as real == OpenQty(row, closed) as real;
    ScaledMoneyAgrees(Get(row.raw, f).n, frac, e, f, OpenQty(row, closed), row.cols.qty);
  }

  lemma DivideBack(u: real, n: real)
    requires n > 0.0
    ensures Times(u, n) / n == u
  {}

  /** One money field of an untouched row. */
  lemma MoneyStays(row: BasketRow, f: Field)
    requires Storable(row.raw) && row.cols.qty > 0
    ensures MoneyAgrees(row.raw, f, OpenMoney(Micro(Get(row.raw, f)), row, 0))
  {
    if Get(row.raw, f).Num? {
      var u := Round(Get(row.raw, f).n * MICRO);
      DivideBack(u as real, row.cols.qty as real);
      RoundOfWhole(u);
      assert OpenMoney(Some(u), row, 0) == u;
    }
  }

  lemma ScaledFields(r: Record, closed: real, f: Field)
    requires closed > 0.0 && QtyOf(r) > closed && f in {Cost, Payoff, Profit}
    ensures var e := Net(r, closed)[0];
      && Net(r, closed) == [e] && QtyOf(e) == QtyOf(r) - closed
      && Get(e, f) == if Get(r, f).Num? then Num(Get(r, f).n * ((QtyOf(r) - closed) / QtyOf(r))) else Get(r, f)
  {}

  lemma UntouchedAgrees(row: BasketRow)
    requires Storable(row.raw) && row.cols == BasketCols(row.raw) && QtyOf(row.raw) == row.cols.qty as real
    ensures Agrees(row, 0)
  {
    MoneyStays(row, Cost);
    MoneyStays(row, Payoff);
    MoneyStays(row, Profit);
  }

  lemma PartlyClosedAgrees(row: BasketRow, closed: int)
    requires Storable(row.raw) && row.cols == BasketCols(row.raw) && QtyOf(row.raw) == row.cols.qty as real
    requires 0 < closed < row.cols.qty
    ensures Agrees(row, closed)
  {
    var e := Net(row.raw, closed as real)[0];
    forall f | f in {Cost, Payoff, Profit} ensures MoneyAgrees(e, f, OpenMoney(Micro(Get(row.raw, f)), row, closed)) {
      ScaledFields(row.raw, closed as real, f);
      if Get(row.raw, f).Num? { MoneyScales(row, f, e, closed); }
    }
    ScaledFields(row.raw, closed as real, Cost);
  }

  lemma IntegralAgrees(row: BasketRow, closed: int)
    requires Storable(row.raw) && row.cols == BasketCols(row.raw) && closed >= 0
    requires QtyOf(row.raw) == row.cols.qty as real
    ensures Agrees(row, closed)
  {
    if closed == 0 {
      UntouchedAgrees(row);
    } else if closed < row.cols.qty {
      PartlyClosedAgrees(row, closed);
    }
  }

  /** Exactly when the check has nothing to say of a row that is not voided: its ledger quantity is a whole
      number, not merely near one, or it is closed in full in both views. */
  lemma AgreesIff(row: BasketRow, closed: int)
    requires Storable(row.raw) && row.cols == BasketCols(row.raw) && closed >= 0
    ensures Agrees(row, closed) <==>
      row.cols.voided || Integral(QtyOf(row.raw)) || (QtyOf(row.raw) <= closed as real && row.cols.qty <= closed)
  {
    var q := QtyOf(row.raw);
    RoundIsNear(q);
    if Integral(q) {
      IntegralAgrees(row, closed);
    } else if !row.cols.voided {
      assert q != row.cols.qty as real;
      if closed > 0 && q > closed as real { ScaledFields(row.raw, closed as real, Cost); }
      if Listed(row, closed) != [] { assert Listed(row, closed)[0] in Listed(row, closed); }
    }
  }

  lemma {:induction false} ClosedIsNatural(log: seq<Record>, closes: seq<CloseRow>, id: nat)
    requires ClosesOk(log) && forall c :: c in closes ==> CloseRowOk(log, c)
    ensures ClosedSum(closes, id) >= 0
  {
    if closes != [] {
      var c := closes[|closes| - 1];
      ClosedIsNatural(log, closes[..|closes| - 1], id);
      assert CloseRowOk(log, c);
      var j :| 0 <= j < |log| && log[j] == c.key;
      ExactQty(c.key);
    }
  }

  /** After mirroring any well-formed log in full the check is silent of a row exactly under that condition; in
      particular it is silent of every row of a log whose quantities are whole. */
  lemma {:induction false} ParityIff(log: seq<Record>, id: nat)
    requires WellFormed(log) && id < |MirrorOnto(EMPTY, log).baskets|
    ensures var db := MirrorOnto(EMPTY, log);
      var (row, closed) := (db.baskets[id], ClosedSum(db.closes, id));
      && row.cols.qty > 0
      && (Agrees(row, closed) <==>
           row.cols.voided || Integral(QtyOf(row.raw)) || (QtyOf(row.raw) <= closed as real && row.cols.qty <= closed))
  {
    var db := MirrorOnto(EMPTY, log);
    FullyMirrored(log);
    assert db.baskets[id] in db.baskets && RowOk(log, db.baskets[id]);
    ClosedIsNatural(log, db.closes, id);
    AgreesIff(db.baskets[id], ClosedSum(db.closes, id));
  }

  // ---------- the whole check ----------

  predicate InViewAt(db: Db, id: nat)
    requires id < |db.baskets|
  {
    InView(db.baskets[id], ClosedSum(db.closes, id))
  }

  ghost predicate Positive(db: Db) {
    forall id :: 0 <= id < |db.baskets| ==> db.baskets[id].cols.qty > 0
  }

  /** check_parity finds no key missing, none unexpected, and no amount that differs. */
  ghost predicate Silent(log: seq<Record>, db: Db)
    requires Positive(db)
  {
    && (forall e :: e in OpenBaskets(log) ==> Finds(db, KeyOf(e)))
    && (forall id :: 0 <= id < |db.baskets| && InViewAt(db, id) ==> Expects(log, RowKey(db.baskets[id])))
    && forall e, id | e in OpenBaskets(log) && 0 <= id < |db.baskets| && InViewAt(db, id)
                      && RowKey(db.baskets[id]) == KeyOf(e) ::
         SameAmounts(e, db.baskets[id], ClosedSum(db.closes, id))
  }

  ghost predicate Finds(db: Db, k: Key) {
    exists id :: 0 <= id < |db.baskets| && InViewAt(db, id) && RowKey(db.baskets[id]) == k
  }

  ghost predicate Expects(log: seq<Record>, k: Key) {
    exists e :: e in OpenBaskets(log) && KeyOf(e) == k
  }

  /** The same of one row, against what the reference lists for its record. */
  ghost predicate RowSilent(log: seq<Record>, db: Db, id: nat)
    requires id < |db.baskets| && db.baskets[id].cols.qty > 0
  {
    var listed := Reference(db.baskets[id].key, log);
    && (listed != [] <==> InViewAt(db, id))
    && forall e :: e in listed && InViewAt(db, id) ==> SameAmounts(e, db.baskets[id], ClosedSum(db.closes, id))
  }

  lemma ReferenceKey(log: seq<Record>, r: Record)
    requires WellFormed(log) && r in log && IsOpen(r)
    ensures forall e :: e in Reference(r, log) ==> KeyOf(e) == KeyOf(r)
  {
    CorrectedKeepsRecord(log, r);
    NetKeepsKey(Corrected(r, log), Unwound(log, KeyOf(r)));
  }

  /** The entry under the key of a record is the one listed for it. */
  lemma EntryOf(log: seq<Record>, r: Record, e: Record)
    requires WellFormed(log) && r in log && IsOpen(r)
    ensures e in OpenBaskets(log) && KeyOf(e) == KeyOf(r) <==> e in Reference(r, log)
  {
    ReferenceMembers(log, e);
    ReferenceKey(log, r);
    if e in OpenBaskets(log) && KeyOf(e) == KeyOf(r) {
      var s :| s in log && IsOpen(s) && e in Reference(s, log);
      ReferenceKey(log, s);
      SameKeySameRecord(log, s, r);
    }
  }

  lemma RowRecord(log: seq<Record>, db: Db, id: nat)
    requires Tables(log, db) && id < |db.baskets|
    ensures var row := db.baskets[id];
      && row.key in log && IsOpen(row.key) && RowKey(row) == KeyOf(row.key)
      && Storable(row.raw) && row.cols == BasketCols(row.raw)
  {
    assert db.baskets[id] in db.baskets && RowOk(log, db.baskets[id]);
  }

  lemma SilentRow(log: seq<Record>, db: Db, id: nat)
    requires WellFormed(log) && Tables(log, db) && Positive(db) && id < |db.baskets| && Silent(log, db)
    ensures RowSilent(log, db, id)
  {
    var row := db.baskets[id];
    RowRecord(log, db, id);
    forall e | e in Reference(row.key, log) ensures e in OpenBaskets(log) && KeyOf(e) == RowKey(row) {
      EntryOf(log, row.key, e);
    }
    if Reference(row.key, log) != [] {
      assert Reference(row.key, log)[0] in Reference(row.key, log);
      assert Finds(db, RowKey(row));
    }
    if InViewAt(db, id) {
      var e :| e in OpenBaskets(log) && KeyOf(e) == RowKey(row);
      EntryOf(log, row.key, e);
    }
  }

  /** Every entry of the reference has its row. */
  ghost predicate AllRows(log: seq<Record>, db: Db) {
    forall r :: r in log && IsOpen(r) && Reference(r, log) != [] ==> HasBasket(db.baskets, r)
  }

  lemma {:induction false} SilentIffRows(log: seq<Record>, db: Db)
    requires WellFormed(log) && Tables(log, db) && Positive(db) && AllRows(log, db)
    ensures Silent(log, db) <==> forall id :: 0 <= id < |db.baskets| ==> RowSilent(log, db, id)
  {
    if Silent(log, db) {
      forall id | 0 <= id < |db.baskets| ensures RowSilent(log, db, id) { SilentRow(log, db, id); }
    }
    if forall id :: 0 <= id < |db.baskets| ==> RowSilent(log, db, id) {
      forall e | e in OpenBaskets(log) ensures Finds(db, KeyOf(e)) { EntryFound(log, db, e); }
      forall id | 0 <= id < |db.baskets| && InViewAt(db, id) ensures Expects(log, RowKey(db.baskets[id])) {
        RowExpected(log, db, id);
      }
      forall e, id | e in OpenBaskets(log) && 0 <= id < |db.baskets| && InViewAt(db, id)
                     && RowKey(db.baskets[id]) == KeyOf(e)
        ensures SameAmounts(e, db.baskets[id], ClosedSum(db.closes, id))
      {
        RowRecord(log, db, id);
        EntryOf(log, db.baskets[id].key, e);
        assert RowSilent(log, db, id);
      }
    }
  }

  lemma RowExpected(log: seq<Record>, db: Db, id: nat)
    requires WellFormed(log) && Tables(log, db) && id < |db.baskets| && db.baskets[id].cols.qty > 0
    requires RowSilent(log, db, id) && InViewAt(db, id)
    ensures Expects(log, RowKey(db.baskets[id]))
  {
    RowRecord(log, db, id);
    var e := Reference(db.baskets[id].key, log)[0];
    EntryOf(log, db.baskets[id].key, e);
  }

  lemma EntryFound(log: seq<Record>, db: Db, e: Record)
    requires WellFormed(log) && Tables(log, db) && AllRows(log, db) && e in OpenBaskets(log) && Positive(db)
    requires forall id :: 0 <= id < |db.baskets| ==> RowSilent(log, db, id)
    ensures Finds(db, KeyOf(e))
  {
    ReferenceMembers(log, e);
    var r :| r in log && IsOpen(r) && e in Reference(r, log);
    ReferenceKey(log, r);
    var id :| 0 <= id < |db.baskets| && db.baskets[id].key == r;
    RowRecord(log, db, id);
    assert RowSilent(log, db, id);
  }

  // ---------- when the check is silent ----------

  /** For an open quantity q of which the row keeps n, when u was unwound and a is attached: the amounts are
      whole and nothing is missing, or it is closed in full in both views. */
  predicate Settles(q: real, n: int, u: real, a: real) {
    (Integral(q) && a == u) || (u > 0.0 && q <= u && n as real <= a)
  }

  /** When the check is silent of the record r after an import over db0. */
  ghost predicate SilentOn(r: Record, db0: Db, log: seq<Record>) {
    var a := AttachedQty(r, db0, log);
    if IsOpen(Corrected(r, log)) then
      Settles(QtyOf(Corrected(r, log)), Round(QtyOf(Corrected(r, log))), Unwound(log, KeyOf(r)), a)
    else
      || !(HasBasket(db0.baskets, r) && IsOpen(RawIn(db0.baskets, r)))
      || Round(QtyOf(RawIn(db0.baskets, r))) as real <= a
  }

  lemma SumIsWhole(a: real, b: real)
    requires Integral(a) && Integral(b)
    ensures Integral(a + b)
  {
    assert a + b == (a.Floor + b.Floor) as real;
  }

  lemma {:induction false} UnwoundIsWhole(log: seq<Record>, k: Key)
    requires ClosesOk(log)
    ensures Integral(Unwound(log, k)) && Unwound(log, k) >= 0.0
  {
    if log != [] {
      var init, r := log[..|log| - 1], log[|log| - 1];
      assert ClosesOk(init);
      UnwoundIsWhole(init, k);
      if IsUnwind(r) {
        ExactQty(r);
        SumIsWhole(Unwound(init, k), QtyOf(r));
      }
    }
  }

  /** A row whose reference entry is net of u, of which a is attached. */
  lemma SettlesIff(row: BasketRow, a: int, u: int)
    requires Storable(row.raw) && row.cols == BasketCols(row.raw) && IsOpen(row.raw) && 0 <= a <= u
    ensures var listed := Net(row.raw, u as real);
      ((listed != [] <==> InView(row, a)) && forall e :: e in listed && InView(row, a) ==> SameAmounts(e, row, a))
      <==> Settles(QtyOf(row.raw), row.cols.qty, u as real, a as real)
  {
    var q := QtyOf(row.raw);
    RoundIsNear(q);
    if a == u {
      AgreesIff(row, a);
    } else if q > u as real {
      var e := Net(row.raw, u as real)[0];
      ScaledFields(row.raw, u as real, Cost);
      assert e in Net(row.raw, u as real) && QtyOf(e) == q - u as real;
      assert QtyOf(e) != OpenQty(row, a) as real;
    }
  }

  lemma RowSilentIff(db0: Db, log: seq<Record>, db: Db, id: nat)
    requires Ready(db0, log) && HealedState(db0, log, db) && id < |db.baskets| && db.baskets[id].cols.qty > 0
    ensures RowSilent(log, db, id) <==> SilentOn(db.baskets[id].key, db0, log)
  {
    var row := db.baskets[id];
    var (r, closed) := (row.key, ClosedSum(db.closes, id));
    RowRecord(log, db, id);
    assert row in db.baskets && HasRow(r, db0, log) && row.raw == RowContent(r, db0, log);
    ClosedIsNatural(log, db.closes, id);
    AttachedAtMostUnwound(r, db0, log);
    UnwoundIsWhole(log, KeyOf(r));
    if IsOpen(Corrected(r, log)) { SettlesIff(row, closed, Unwound(log, KeyOf(r)).Floor); }
  }

  lemma PositiveRows(log: seq<Record>, db: Db)
    requires Tables(log, db)
    ensures Positive(db)
  {
    forall id | 0 <= id < |db.baskets| ensures db.baskets[id].cols.qty > 0 { RowRecord(log, db, id); }
  }

  /** After an import over any database filled from the ledger, the whole check (keys missing, keys
      unexpected, amounts that differ) is silent if and only if it is so of every open record. */
  lemma {:induction false} ParityExactly(db0: Db, log: seq<Record>)
    requires Ready(db0, log)
    ensures var db := Import(db0, log).db;
      Positive(db) && (Silent(log, db) <==> forall r :: r in log && IsOpen(r) ==> SilentOn(r, db0, log))
  {
    var db := Import(db0, log).db;
    ImportState(db0, log);
    PositiveRows(log, db);
    SilentIffRows(log, db);
    forall id | 0 <= id < |db.baskets|
      ensures RowSilent(log, db, id) <==> SilentOn(db.baskets[id].key, db0, log)
      ensures db.baskets[id].key in log && IsOpen(db.baskets[id].key)
    {
      RowSilentIff(db0, log, db, id);
      RowRecord(log, db, id);
    }
    forall r | r in log && IsOpen(r) && !HasBasket(db.baskets, r) ensures SilentOn(r, db0, log) {
      assert !HasRow(r, db0, log);
    }
    if forall id :: 0 <= id < |db.baskets| ==> RowSilent(log, db, id) {
      forall r | r in log && IsOpen(r) && HasBasket(db.baskets, r) ensures SilentOn(r, db0, log) {
        var id :| 0 <= id < |db.baskets| && db.baskets[id].key == r;
        assert RowSilent(log, db, id);
      }
    }
  }

  /** Every quantity the import compares is whole. */
  ghost predicate Whole(r: Record, db0: Db, log: seq<Record>) {
    Integral(QtyOf(if IsOpen(Corrected(r, log)) then Corrected(r, log) else RawIn(db0.baskets, r)))
  }

  lemma WholeSilentIff(r: Record, db0: Db, log: seq<Record>)
    requires Ready(db0, log) && r in log && IsOpen(r) && Whole(r, db0, log)
    ensures SilentOn(r, db0, log) <==> Heals(r, db0, log)
  {
    AttachedAtMostUnwound(r, db0, log);
    if IsOpen(Corrected(r, log)) {
      RoundIsNear(QtyOf(Corrected(r, log)));
      StorableIsPositive(Corrected(r, log));
    } else {
      RoundIsNear(QtyOf(RawIn(db0.baskets, r)));
    }
  }

  /** The gate is exact: of whole quantities, the check after an import is silent if and only if the import
      healed, that is, the open view of the database is the reference view. */
  lemma {:induction false} GateIsExact(db0: Db, log: seq<Record>)
    requires Ready(db0, log) && forall r :: r in log && IsOpen(r) ==> Whole(r, db0, log)
    ensures var db := Import(db0, log).db;
      Positive(db) && (Silent(log, db) <==> AsSet(View(db.baskets, db.closes)) == AsSet(OpenBaskets(log)))
  {
    ParityExactly(db0, log);
    HealExactly(db0, log);
    forall r | r in log && IsOpen(r) ensures SilentOn(r, db0, log) <==> Heals(r, db0, log) {
      WholeSilentIff(r, db0, log);
    }
  }
}
