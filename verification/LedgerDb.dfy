/** The SQLite mirror of the ledger (src/arbbot/exec/ledgerdb.py, src/arbbot/exec/schema.sql): the basket,
    basket_close and audit_log tables, the statements that write them, and the netted read path. */
module LedgerDb {
  import opened Core
  import opened Ledger

  // ---------- column conversions ----------

  /** Round half to even. */
  function Round(x: real): int {
    var f := x.Floor;
    var d := x - f as real;
    if d < 0.5 then f else if d > 0.5 then f + 1 else if f % 2 == 0 then f else f + 1
  }

  /** Contract counts; a value more than a millionth away from an integer is refused. */
  function IntQty(v: Value): Option<int> {
    if !v.Num? then None
    else
      var d := Round(v.n) as real - v.n;
      if d > 0.000001 || d < -0.000001 then None else Some(Round(v.n))
  }

  predicate Money(v: Value) {
    v.Null? || v.Num?
  }

  function Micro(v: Value): Option<int> {
    if v.Num? then Some(Round(v.n * 1000000.0)) else None
  }

  datatype Cols = Cols(qty: int, cost: Option<int>, payoff: Option<int>, profit: Option<int>, voided: bool)

  const VENUES := {Str("kalshi"), Str("polymarket"), Str("polymarket_us")}

  /** A missing quantity of a leg counts as zero. */
  predicate LegQty(v: Value) {
    v.Null? || IntQty(v).Some?
  }

  /** The leg's columns convert, and its table takes the row. */
  predicate LegOk(v: Value) {
    && v.Obj? && Get(v.o, Venue) in VENUES && Get(v.o, MarketId).Str? && LegQty(Get(v.o, Qty))
    && Money(if Get(v.o, YesPrice) != Null then Get(v.o, YesPrice) else Get(v.o, AvgPrice))
    && Money(Get(v.o, Cost)) && Money(Get(v.o, Fees))
  }

  predicate LegsOk(v: Value) {
    v.Null? || (v.Arr? && forall i :: 0 <= i < |v.a| ==> LegOk(v.a[i]))
  }

  /** The basket's own columns convert, and the table's CHECK constraints hold. */
  predicate ColsOk(r: Record) {
    && Get(r, Ts).Num?
    && IntQty(Get(r, Qty)).Some? && IntQty(Get(r, Qty)).value > 0
    && Money(Get(r, Cost)) && Money(Get(r, Payoff)) && Money(Get(r, Profit))
  }

  /** Neither the basket nor any of its legs, which go in with it or not at all, is refused. */
  predicate Storable(r: Record) {
    ColsOk(r) && LegsOk(Get(r, Legs))
  }

  function BasketCols(r: Record): Cols
    requires Storable(r)
  {
    Cols(IntQty(Get(r, Qty)).value, Micro(Get(r, Cost)), Micro(Get(r, Payoff)), Micro(Get(r, Profit)), !IsOpen(r))
  }

  predicate CloseStorable(r: Record) {
    && Get(r, Ts).Num? && IntQty(Get(r, Qty)).Some? && IntQty(Get(r, Qty)).value > 0
    && Money(Get(r, Realized)) && Money(Get(r, Proceeds)) && Money(Get(r, Fees))
  }

  // ---------- tables ----------

  /** A row of basket. The content hash of the raw record is injective, so the record is its own key.
      rel and ts are written once; the other columns and raw follow every correction. */
  datatype BasketRow = BasketRow(key: Record, rel: Value, ts: Value, cols: Cols, raw: Record)

  datatype CloseRow = CloseRow(key: Record, basket: Option<nat>, qty: int)

  /** What the update trigger captures: the columns before the change. */
  datatype AuditRow = AuditRow(basket: nat, before: Cols)

  /** Row ids are positions: neither table ever deletes. */
  datatype Db = Db(baskets: seq<BasketRow>, closes: seq<CloseRow>, audit: seq<AuditRow>)

  const EMPTY := Db([], [], [])

  function RowKey(b: BasketRow): Key {
    (b.rel, b.ts)
  }

  /** First row addressed by a key; a NULL timestamp equals nothing in SQL. */
  function FindRow(rows: seq<BasketRow>, k: Key): (i: Option<nat>)
    ensures i.Some? ==> i.value < |rows| && RowKey(rows[i.value]) == k && k.1 != Null
    ensures i.None? ==> k.1 == Null || forall j :: 0 <= j < |rows| ==> RowKey(rows[j]) != k
  {
    if rows == [] || k.1 == Null then None
    else
      var before := FindRow(rows[..|rows| - 1], k);
      if before.Some? then before
      else if RowKey(rows[|rows| - 1]) == k then Some(|rows| - 1)
      else None
  }

  predicate HasBasket(rows: seq<BasketRow>, key: Record) {
    exists i :: 0 <= i < |rows| && rows[i].key == key
  }

  predicate HasClose(rows: seq<CloseRow>, key: Record) {
    exists i :: 0 <= i < |rows| && rows[i].key == key
  }

  // ---------- statements ----------

  datatype Outcome = Inserted | Present | Raised

  function InsertBasket(db: Db, r: Record, key: Record): (Db, Outcome) {
    if !ColsOk(r) then (db, Raised)
    else if HasBasket(db.baskets, key) then (db, Present)
    else if !LegsOk(Get(r, Legs)) then (db, Raised)
    else (db.(baskets := db.baskets + [BasketRow(key, Get(r, Rel), Get(r, Ts), BasketCols(r), r)]), Inserted)
  }

  function InsertClose(db: Db, r: Record, key: Record): (Db, Outcome) {
    if !CloseStorable(r) then (db, Raised)
    else if HasClose(db.closes, key) then (db, Present)
    else
      var basket := if Get(r, ClosesTs) != Null then FindRow(db.baskets, UnwindTarget(r)) else None;
      (db.(closes := db.closes + [CloseRow(key, basket, IntQty(Get(r, Qty)).value)]), Inserted)
  }

  datatype Correction = NoTarget | Unchanged | Applied | Failed

  function Correct(db: Db, r: Record): (Db, Correction) {
    var i := FindRow(db.baskets, FixTarget(r));
    if i.None? then (db, NoTarget)
    else
      var row := db.baskets[i.value];
      var corrected := row.raw + FixFields(r);
      if corrected == row.raw then (db, Unchanged)
      else if !Storable(corrected) then (db, Failed)
      else
        (db.(baskets := db.baskets[i.value := row.(cols := BasketCols(corrected), raw := corrected)],
             audit := db.audit + [AuditRow(i.value, row.cols)]), Applied)
  }

  /** One mirrored record; the caller swallows every failure. */
  function Mirror(db: Db, r: Record): Db {
    if Get(r, Status) == OPEN then InsertBasket(db, r, r).0
    else if Get(r, Status) == UNWOUND || Get(r, Status) == REALIZED then InsertClose(db, r, r).0
    else if Get(r, Status) == CORRECTION then Correct(db, r).0
    else db
  }

  function MirrorOnto(db: Db, log: seq<Record>): Db {
    if log == [] then db else Mirror(MirrorOnto(db, log[..|log| - 1]), log[|log| - 1])
  }

  function ClosedSum(closes: seq<CloseRow>, id: nat): int {
    if closes == [] then 0
    else
      ClosedSum(closes[..|closes| - 1], id)
      + if closes[|closes| - 1].basket == Some(id) then closes[|closes| - 1].qty else 0
  }

  function View(baskets: seq<BasketRow>, closes: seq<CloseRow>): seq<Record> {
    if baskets == [] then []
    else
      var n := |baskets| - 1;
      var before := View(baskets[..n], closes);
      if baskets[n].cols.voided then before else before + Net(baskets[n].raw, ClosedSum(closes, n) as real)
  }

  class TradingDb {
    var baskets: seq<BasketRow>
    var closes: seq<CloseRow>
    var audit: seq<AuditRow>

    ghost function State(): Db
      reads this
    {
      Db(baskets, closes, audit)
    }

    constructor ()
      ensures State() == EMPTY
    {
      baskets, closes, audit := [], [], [];
    }

    method RecordBasket(r: Record, key: Record) returns (o: Outcome)
      modifies this
      ensures (State(), o) == InsertBasket(old(State()), r, key)
    {
      if !ColsOk(r) { return Raised; }
      if exists i :: 0 <= i < |baskets| && baskets[i].key == key { return Present; }
      if !LegsOk(Get(r, Legs)) { return Raised; }
      baskets := baskets + [BasketRow(key, Get(r, Rel), Get(r, Ts), BasketCols(r), r)];
      return Inserted;
    }

    method RecordClose(r: Record, key: Record) returns (o: Outcome)
      modifies this
      ensures (State(), o) == InsertClose(old(State()), r, key)
    {
      var basket := None;
      if Get(r, ClosesTs) != Null { basket := FindRow(baskets, UnwindTarget(r)); }
      if !CloseStorable(r) { return Raised; }
      if exists i :: 0 <= i < |closes| && closes[i].key == key { return Present; }
      closes := closes + [CloseRow(key, basket, IntQty(Get(r, Qty)).value)];
      return Inserted;
    }

    method ApplyCorrection(r: Record) returns (c: Correction)
      modifies this
      ensures (State(), c) == Correct(old(State()), r)
    {
      var i := FindRow(baskets, FixTarget(r));
      if i.None? { return NoTarget; }
      var row := baskets[i.value];
      var corrected := row.raw + FixFields(r);
      if corrected == row.raw { return Unchanged; }
      if !Storable(corrected) { return Failed; }
      audit := audit + [AuditRow(i.value, row.cols)];
      baskets := baskets[i.value := row.(cols := BasketCols(corrected), raw := corrected)];
      return Applied;
    }

    method MirrorRecord(r: Record)
      modifies this
      ensures State() == Mirror(old(State()), r)
    {
      if Get(r, Status) == OPEN {
        var _ := RecordBasket(r, r);
      } else if Get(r, Status) == UNWOUND || Get(r, Status) == REALIZED {
        var _ := RecordClose(r, r);
      } else if Get(r, Status) == CORRECTION {
        var _ := ApplyCorrection(r);
      }
    }

    method OpenBasketsDb() returns (out: seq<Record>)
      ensures out == View(baskets, closes)
    {
      out := [];
      for id := 0 to |baskets|
        invariant out == View(baskets[..id], closes)
      {
        assert baskets[..id + 1][..id] == baskets[..id];
        var row := baskets[id];
        if row.cols.voided { continue; }
        var net := NetRecord(row.raw, ClosedSum(closes, id) as real);
        out := out + net;
      }
      assert baskets[..|baskets|] == baskets;
    }
  }

  // ---------- what the tables take ----------

  lemma RoundIsNearest(x: real)
    ensures var d := x - Round(x) as real;
      -0.5 <= d <= 0.5 && (d == 0.5 || d == -0.5 ==> Round(x) % 2 == 0)
  {}

  /** A count of n contracts, up to a millionth. */
  predicate Whole(v: Value, n: int) {
    v.Num? && -0.000001 <= v.n - n as real <= 0.000001
  }

  /** The column holds the one whole number the value is a millionth from, if there is one. */
  lemma IntQtyIff(v: Value, n: int)
    ensures IntQty(v) == Some(n) <==> Whole(v, n)
  {
    if v.Num? {
      RoundIsNearest(v.n);
      var k := Round(v.n);
      if Whole(v, n) {
        assert -1.0 < (k - n) as real < 1.0;
        assert k == n;
      }
    }
  }

  lemma IntQtySome(v: Value)
    ensures IntQty(v).Some? <==> exists n :: Whole(v, n)
    ensures IntQty(v).Some? && IntQty(v).value > 0 <==> exists n :: n > 0 && Whole(v, n)
  {
    if IntQty(v).Some? { IntQtyIff(v, IntQty(v).value); }
    forall n | Whole(v, n) ensures IntQty(v) == Some(n) { IntQtyIff(v, n); }
  }

  /** A leg that its table takes: of one of three venues, with a market, a whole quantity if any, and amounts that are
      numbers if any, the price being the average one where there is no other. */
  ghost predicate LegTaken(v: Value) {
    && v.Obj? && Get(v.o, MarketId).Str?
    && (|| Get(v.o, Venue) == Str("kalshi") || Get(v.o, Venue) == Str("polymarket")
        || Get(v.o, Venue) == Str("polymarket_us"))
    && (Get(v.o, Qty) == Null || exists n :: Whole(Get(v.o, Qty), n))
    && (Get(v.o, YesPrice).Num? || (Get(v.o, YesPrice) == Null && Get(v.o, AvgPrice) in NumOrNull(Get(v.o, AvgPrice))))
    && Get(v.o, Cost) in NumOrNull(Get(v.o, Cost)) && Get(v.o, Fees) in NumOrNull(Get(v.o, Fees))
  }

  /** The value itself if it is a number, and Null. */
  function NumOrNull(v: Value): set<Value> {
    if v.Num? then {v, Null} else {Null}
  }

  lemma LegTakenIff(v: Value)
    ensures LegOk(v) <==> LegTaken(v)
  {
    if v.Obj? { IntQtySome(Get(v.o, Qty)); }
  }

  /** A record is refused exactly when it has no time, no whole positive quantity, an amount that is not a number, or
      legs one of which is refused; and a close likewise. */
  lemma RefusedIff(r: Record)
    ensures !Storable(r) <==>
      || !Get(r, Ts).Num? || !(exists n :: n > 0 && Whole(Get(r, Qty), n))
      || (exists f :: f in {Cost, Payoff, Profit} && Get(r, f) !in NumOrNull(Get(r, f)))
      || (Get(r, Legs) != Null && !Get(r, Legs).Arr?)
      || (Get(r, Legs).Arr? && exists i :: 0 <= i < |Get(r, Legs).a| && !LegTaken(Get(r, Legs).a[i]))
    ensures !CloseStorable(r) <==>
      || !Get(r, Ts).Num? || !(exists n :: n > 0 && Whole(Get(r, Qty), n))
      || (exists f :: f in {Realized, Proceeds, Fees} && Get(r, f) !in NumOrNull(Get(r, f)))
  {
    IntQtySome(Get(r, Qty));
    assert Cost in {Cost, Payoff, Profit} && Payoff in {Cost, Payoff, Profit} && Profit in {Cost, Payoff, Profit};
    assert Realized in {Realized, Proceeds, Fees} && Proceeds in {Realized, Proceeds, Fees}
        && Fees in {Realized, Proceeds, Fees};
    if Get(r, Legs).Arr? {
      forall i | 0 <= i < |Get(r, Legs).a| ensures LegOk(Get(r, Legs).a[i]) <==> LegTaken(Get(r, Legs).a[i]) {
        LegTakenIff(Get(r, Legs).a[i]);
      }
    }
  }

  // ---------- the audit log ----------

  function ColsOf(rows: seq<BasketRow>): seq<Cols> {
    if rows == [] then [] else ColsOf(rows[..|rows| - 1]) + [rows[|rows| - 1].cols]
  }

  lemma {:induction false} ColsOfAt(rows: seq<BasketRow>)
    ensures |ColsOf(rows)| == |rows| && forall i :: 0 <= i < |rows| ==> ColsOf(rows)[i] == rows[i].cols
  {
    if rows != [] { ColsOfAt(rows[..|rows| - 1]); }
  }

  /** The columns after taking back audited changes, the latest first. */
  function Undo(cols: seq<Cols>, audit: seq<AuditRow>): seq<Cols>
    decreases audit
  {
    if audit == [] then cols
    else
      var a := audit[|audit| - 1];
      Undo(if a.basket < |cols| then cols[a.basket := a.before] else cols, audit[..|audit| - 1])
  }

  /** What the rows were inserted with: each holds its record under that record as key. */
  ghost predicate AsInserted(rows: seq<BasketRow>, cols: seq<Cols>) {
    && |rows| == |cols|
    && forall i :: 0 <= i < |rows| ==> Storable(rows[i].key) && cols[i] == BasketCols(rows[i].key)
  }

  lemma {:induction false} UndoLeavesNew(cols: seq<Cols>, c: Cols, audit: seq<AuditRow>)
    requires forall a :: a in audit ==> a.basket < |cols|
    ensures Undo(cols + [c], audit) == Undo(cols, audit) + [c] && |Undo(cols, audit)| == |cols|
    decreases audit
  {
    if audit != [] {
      var a := audit[|audit| - 1];
      assert (cols + [c])[a.basket := a.before] == cols[a.basket := a.before] + [c];
      UndoLeavesNew(cols[a.basket := a.before], c, audit[..|audit| - 1]);
    }
  }

  lemma UndoLast(cols: seq<Cols>, audit: seq<AuditRow>, a: AuditRow)
    requires a.basket < |cols|
    ensures Undo(cols, audit + [a]) == Undo(cols[a.basket := a.before], audit)
  {
    assert (audit + [a])[..|audit|] == audit;
  }

  /** Taking back what the audit log gained since db restores every row that db had, and of every later row what
      it was inserted with. */
  ghost predicate Undoable(db: Db, db': Db) {
    && db.audit <= db'.audit && |db.baskets| <= |db'.baskets|
    && (forall a :: a in db'.audit[|db.audit|..] ==> a.basket < |db'.baskets|)
    && var cols := Undo(ColsOf(db'.baskets), db'.audit[|db.audit|..]);
       && |cols| == |db'.baskets|
       && cols[..|db.baskets|] == ColsOf(db.baskets)
       && AsInserted(db'.baskets[|db.baskets|..], cols[|db.baskets|..])
  }

  lemma InsertUndoable(db: Db, mid: Db, r: Record)
    requires Undoable(db, mid) && InsertBasket(mid, r, r).1.Inserted?
    ensures Undoable(db, InsertBasket(mid, r, r).0)
  {
    var (n, next, newer) := (|db.baskets|, InsertBasket(mid, r, r).0, mid.audit[|db.audit|..]);
    var row := next.baskets[|mid.baskets|];
    assert next.baskets[..|mid.baskets|] == mid.baskets;
    ColsOfAt(mid.baskets);
    UndoLeavesNew(ColsOf(mid.baskets), row.cols, newer);
    var cols := Undo(ColsOf(mid.baskets), newer);
    assert (cols + [row.cols])[..n] == cols[..n] && (cols + [row.cols])[n..] == cols[n..] + [row.cols];
    assert next.baskets[n..] == mid.baskets[n..] + [row];
  }

  /** A correction changes one row and audits its columns. */
  lemma CorrectAudits(db: Db, r: Record) returns (a: AuditRow)
    requires Correct(db, r).1.Applied?
    ensures var next := Correct(db, r).0;
      && next.audit == db.audit + [a] && a.basket < |next.baskets| == |db.baskets| == |ColsOf(next.baskets)|
      && ColsOf(next.baskets)[a.basket := a.before] == ColsOf(db.baskets)
      && forall i :: 0 <= i < |db.baskets| ==> next.baskets[i].key == db.baskets[i].key
  {
    var next := Correct(db, r).0;
    a := next.audit[|db.audit|];
    ColsOfAt(db.baskets);
    ColsOfAt(next.baskets);
  }

  lemma CorrectUndoable(db: Db, mid: Db, r: Record)
    requires Undoable(db, mid) && Correct(mid, r).1.Applied?
    ensures Undoable(db, Correct(mid, r).0)
  {
    var a := CorrectAudits(mid, r);
    AuditedUndoable(db, mid, Correct(mid, r).0, a);
  }

  lemma AuditedUndoable(db: Db, mid: Db, next: Db, a: AuditRow)
    requires Undoable(db, mid) && next.audit == mid.audit + [a]
    requires a.basket < |next.baskets| == |mid.baskets| == |ColsOf(next.baskets)|
    requires ColsOf(next.baskets)[a.basket := a.before] == ColsOf(mid.baskets)
    requires forall i :: 0 <= i < |mid.baskets| ==> next.baskets[i].key == mid.baskets[i].key
    ensures Undoable(db, next)
  {
    var (n, k) := (|db.baskets|, |db.audit|);
    assert next.audit[k..] == mid.audit[k..] + [a];
    UndoLast(ColsOf(next.baskets), mid.audit[k..], a);
    forall i | 0 <= i < |mid.baskets| - n ensures next.baskets[n..][i].key == mid.baskets[n..][i].key {}
  }

  /** No column a correction overwrites is lost: of any database and any records mirrored into it, taking back
      the audited changes, the latest first, restores the columns every row had, and of the rows inserted
      meanwhile those of their records. */
  lemma {:induction false} AuditUndoes(db: Db, log: seq<Record>)
    ensures Undoable(db, MirrorOnto(db, log))
  {
    ColsOfAt(db.baskets);
    if log != [] {
      var (mid, r) := (MirrorOnto(db, log[..|log| - 1]), log[|log| - 1]);
      AuditUndoes(db, log[..|log| - 1]);
      if Get(r, Status) == OPEN && InsertBasket(mid, r, r).1.Inserted? { InsertUndoable(db, mid, r); }
      if Get(r, Status) == CORRECTION && Correct(mid, r).1.Applied? { CorrectUndoable(db, mid, r); }
    }
  }
}
