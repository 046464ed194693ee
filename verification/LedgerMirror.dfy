/** The mirror agrees with the ledger it mirrors: feeding a well-formed log record by record and then
    reading the database gives the reference view, and what a second mirroring changes. */
module LedgerMirror {
  import opened Core
  import opened Ledger
  import opened LedgerDb

  predicate IsClose(r: Record) {
    Get(r, Status) == UNWOUND || Get(r, Status) == REALIZED
  }

  /** Fields a correction may carry: never the address of its target, only values the columns can hold,
      and no status that would turn the target into a close. */
  predicate FieldsOk(f: Record) {
    && Ts !in f && Rel !in f
    && (Qty in f ==> IntQty(f[Qty]).Some? && IntQty(f[Qty]).value > 0)
    && (Legs in f ==> LegsOk(f[Legs]))
    && (Cost in f ==> Money(f[Cost])) && (Payoff in f ==> Money(f[Payoff])) && (Profit in f ==> Money(f[Profit]))
    && (Status in f ==> f[Status] != UNWOUND && f[Status] != REALIZED)
  }

  /** A close the table accepts, of a whole number of contracts; only unwinds name a basket. */
  predicate CloseOk(r: Record) {
    && CloseStorable(r) && QtyOf(r) == QtyOf(r).Floor as real
    && (Get(r, Status) == REALIZED ==> Get(r, ClosesTs) == Null)
  }

  /** Open records have distinct (relationship, timestamp) keys. */
  ghost predicate OpensDistinct(log: seq<Record>) {
    forall i, j :: 0 <= i < j < |log| && IsOpen(log[i]) && IsOpen(log[j]) ==> KeyOf(log[i]) != KeyOf(log[j])
  }

  /** A correction follows its target, which is an open record. */
  ghost predicate FixesFollow(log: seq<Record>) {
    forall i, j | 0 <= i < |log| && 0 <= j < |log| && IsFix(log[j]) && Get(log[i], Status) != CORRECTION
                  && KeyOf(log[i]) == FixTarget(log[j]) :: i < j && IsOpen(log[i])
  }

  ghost predicate FixesOk(log: seq<Record>) {
    forall j :: 0 <= j < |log| && IsFix(log[j]) ==> FieldsOk(FixFields(log[j]))
  }

  ghost predicate ClosesOk(log: seq<Record>) {
    forall j :: 0 <= j < |log| && IsClose(log[j]) ==> CloseOk(log[j])
  }

  ghost predicate ClosesDistinct(log: seq<Record>) {
    forall i, j :: 0 <= i < j < |log| && IsClose(log[i]) && IsClose(log[j]) ==> log[i] != log[j]
  }

  ghost predicate ClosesFollow(log: seq<Record>) {
    forall i, j | 0 <= i < |log| && 0 <= j < |log| && IsOpen(log[i]) && IsUnwind(log[j])
                  && KeyOf(log[i]) == UnwindTarget(log[j]) :: i < j
  }

  /** What the mirror relies on; every clause is about records or pairs of records of the log. */
  ghost predicate WellFormed(log: seq<Record>) {
    && OpensDistinct(log) && FixesFollow(log) && FixesOk(log)
    && ClosesOk(log) && ClosesDistinct(log) && ClosesFollow(log)
  }

  // ---------- overlays ----------

  lemma {:induction false} OverlayOk(log: seq<Record>, k: Key)
    requires FixesOk(log)
    ensures FieldsOk(Overlay(log, k))
  {
    if log != [] { OverlayOk(log[..|log| - 1], k); }
  }

  lemma {:induction false} OverlayEmpty(log: seq<Record>, k: Key)
    requires forall j :: 0 <= j < |log| && IsFix(log[j]) ==> FixTarget(log[j]) != k
    ensures Overlay(log, k) == map[]
  {
    if log != [] { OverlayEmpty(log[..|log| - 1], k); }
  }

  lemma MergeStorable(r: Record, f: Record)
    requires FieldsOk(f)
    ensures Storable(r) ==> Storable(r + f)
    ensures KeyOf(r + f) == KeyOf(r)
    ensures IsClose(r + f) ==> IsClose(r)
  {}

  lemma WellFormedPrefix(log: seq<Record>, n: nat)
    requires WellFormed(log) && n <= |log|
    ensures WellFormed(log[..n])
  {}

  /** Closes and the like are never corrected. */
  lemma OnlyOpensCorrected(log: seq<Record>, i: nat)
    requires FixesFollow(log) && i < |log| && !IsOpen(log[i]) && Get(log[i], Status) != CORRECTION
    ensures Corrected(log[i], log) == log[i]
  {
    OverlayEmpty(log, KeyOf(log[i]));
  }

  // ---------- the basket table ----------

  function RowOf(r: Record, log: seq<Record>): BasketRow
    requires Storable(Corrected(r, log))
  {
    BasketRow(r, Get(r, Rel), Get(r, Ts), BasketCols(Corrected(r, log)), Corrected(r, log))
  }

  predicate Stored(r: Record, log: seq<Record>) {
    IsOpen(r) && Storable(r) && Storable(Corrected(r, log))
  }

  function Rows(part: seq<Record>, log: seq<Record>): seq<BasketRow> {
    if part == [] then []
    else
      var r := part[|part| - 1];
      var before := Rows(part[..|part| - 1], log);
      if Stored(r, log) then before + [RowOf(r, log)] else before
  }

  lemma {:induction false} RowsAreStored(part: seq<Record>, log: seq<Record>)
    ensures forall row :: row in Rows(part, log) ==>
      row.key in part && Stored(row.key, log) && row == RowOf(row.key, log)
    ensures forall r :: r in part && Stored(r, log) ==> RowOf(r, log) in Rows(part, log)
  {
    if part != [] {
      RowsAreStored(part[..|part| - 1], log);
      assert part == part[..|part| - 1] + [part[|part| - 1]];
    }
  }

  lemma {:induction false} RowsDistinct(part: seq<Record>, log: seq<Record>)
    requires OpensDistinct(part)
    ensures RowKeysDistinct(Rows(part, log))
  {
    if part != [] {
      var p, r := part[..|part| - 1], part[|part| - 1];
      RowsDistinct(p, log);
      RowsAreStored(p, log);
      if IsOpen(r) { OpenIsNew(p, part); }
      forall row | row in Rows(p, log) ensures IsOpen(r) ==> RowKey(row) != KeyOf(r) {}
    }
  }

  ghost predicate RowKeysDistinct(rows: seq<BasketRow>) {
    forall i, j :: 0 <= i < j < |rows| ==> RowKey(rows[i]) != RowKey(rows[j])
  }

  /** The key of the last open record is new to the log. */
  lemma OpenIsNew(p: seq<Record>, log: seq<Record>)
    requires log != [] && p == log[..|log| - 1] && OpensDistinct(log) && IsOpen(log[|log| - 1])
    ensures forall x :: x in p && IsOpen(x) ==> KeyOf(x) != KeyOf(log[|log| - 1])
  {
    forall x | x in p && IsOpen(x) ensures KeyOf(x) != KeyOf(log[|log| - 1]) {
      var j :| 0 <= j < |p| && p[j] == x;
      assert log[j] == x;
    }
  }

  lemma {:induction false} RowsCongruent(part: seq<Record>, log: seq<Record>, log': seq<Record>)
    requires forall k :: Overlay(log, k) == Overlay(log', k)
    ensures Rows(part, log) == Rows(part, log')
  {
    if part != [] {
      RowsCongruent(part[..|part| - 1], log, log');
      assert Overlay(log, KeyOf(part[|part| - 1])) == Overlay(log', KeyOf(part[|part| - 1]));
    }
  }

  function Patch(row: BasketRow, f: Record): BasketRow {
    var corrected := row.raw + FixFields(f);
    if RowKey(row) == FixTarget(f) && Storable(corrected)
    then row.(cols := BasketCols(corrected), raw := corrected) else row
  }

  function PatchAll(rows: seq<BasketRow>, f: Record): seq<BasketRow> {
    if rows == [] then [] else PatchAll(rows[..|rows| - 1], f) + [Patch(rows[|rows| - 1], f)]
  }

  lemma {:induction false} PatchAllAt(rows: seq<BasketRow>, f: Record)
    ensures |PatchAll(rows, f)| == |rows|
    ensures forall i :: 0 <= i < |rows| ==> PatchAll(rows, f)[i] == Patch(rows[i], f)
  {
    if rows != [] { PatchAllAt(rows[..|rows| - 1], f); }
  }

  lemma PatchAllAppend(rows: seq<BasketRow>, row: BasketRow, f: Record)
    ensures PatchAll(rows + [row], f) == PatchAll(rows, f) + [Patch(row, f)]
  {
    assert (rows + [row])[..|rows|] == rows;
  }

  /** With distinct row keys, correcting the first addressed row is correcting every addressed row. */
  lemma CorrectPatches(db: Db, f: Record)
    requires IsFix(f) && FieldsOk(FixFields(f)) && RowKeysDistinct(db.baskets)
    requires forall row :: row in db.baskets ==> Storable(row.raw) && row.cols == BasketCols(row.raw)
    ensures Correct(db, f).0.baskets == PatchAll(db.baskets, f)
    ensures Correct(db, f).0.closes == db.closes && !Correct(db, f).1.Failed?
    ensures Correct(db, f).1.NoTarget? <==> forall row :: row in db.baskets ==> RowKey(row) != FixTarget(f)
  {
    var rows, hit := db.baskets, FindRow(db.baskets, FixTarget(f));
    PatchAllAt(rows, f);
    if hit.Some? {
      var row := rows[hit.value];
      assert row in rows;
      MergeStorable(row.raw, FixFields(f));
    }
    forall i | 0 <= i < |rows| ensures PatchAll(rows, f)[i] == Correct(db, f).0.baskets[i] {
      assert rows[i] in rows;
    }
  }

  lemma {:induction false} RowsPatched(part: seq<Record>, p: seq<Record>, log: seq<Record>)
    requires log != [] && p == log[..|log| - 1] && FixesOk(log) && IsFix(log[|log| - 1])
    ensures Rows(part, log) == PatchAll(Rows(part, p), log[|log| - 1])
  {
    if part != [] {
      var r, f := part[|part| - 1], log[|log| - 1];
      RowsPatched(part[..|part| - 1], p, log);
      OverlayOk(p, KeyOf(r));
      OverlayOk(log, KeyOf(r));
      MergeStorable(r, Overlay(p, KeyOf(r)));
      MergeStorable(r, Overlay(log, KeyOf(r)));
      assert Corrected(r, log) == if KeyOf(r) == FixTarget(f) then Corrected(r, p) + FixFields(f) else Corrected(r, p);
      if Stored(r, p) {
        PatchAllAppend(Rows(part[..|part| - 1], p), RowOf(r, p), f);
      }
    }
  }

  /** A mirrored correction of well-kept rows patches them. */
  lemma FixPatches(db: Db, f: Record, p: seq<Record>)
    requires IsFix(f) && FieldsOk(FixFields(f)) && OpensDistinct(p) && FixesOk(p) && db.baskets == Rows(p, p)
    ensures Mirror(db, f).baskets == PatchAll(db.baskets, f) && Mirror(db, f).closes == db.closes
  {
    RowsDistinct(p, p);
    RowsAreStored(p, p);
    CorrectPatches(db, f);
    assert Mirror(db, f) == Correct(db, f).0;
  }

  lemma RowsAfterFix(p: seq<Record>, log: seq<Record>, db: Db)
    requires log != [] && p == log[..|log| - 1] && FixesOk(log) && OpensDistinct(p) && IsFix(log[|log| - 1])
    requires db.baskets == Rows(p, p)
    ensures Mirror(db, log[|log| - 1]).baskets == Rows(log, log)
    ensures Mirror(db, log[|log| - 1]).closes == db.closes
    ensures |Rows(log, log)| == |db.baskets|
    ensures forall i :: 0 <= i < |db.baskets| ==> RowKey(Rows(log, log)[i]) == RowKey(db.baskets[i])
  {
    var f := log[|log| - 1];
    FixPatches(db, f, p);
    RowsPatched(p, p, log);
    assert Rows(log, log) == Rows(p, log);
    PatchAllAt(db.baskets, f);
  }

  lemma {:induction false} RowsAfterOther(p: seq<Record>, log: seq<Record>)
    requires log != [] && p == log[..|log| - 1] && !IsFix(log[|log| - 1]) && !IsOpen(log[|log| - 1])
    ensures Rows(log, log) == Rows(p, p)
  {
    RowsCongruent(p, log, p);
  }

  lemma {:induction false} RowsAfterOpen(p: seq<Record>, log: seq<Record>, db: Db)
    requires log != [] && p == log[..|log| - 1] && OpensDistinct(log) && FixesFollow(log) && IsOpen(log[|log| - 1])
    requires db.baskets == Rows(p, p)
    ensures InsertBasket(db, log[|log| - 1], log[|log| - 1]).0.baskets == Rows(log, log)
  {
    var r := log[|log| - 1];
    RowsCongruent(p, log, p);
    RowsAreStored(p, p);
    OpenIsNew(p, log);
    forall j | 0 <= j < |log| && IsFix(log[j]) ensures FixTarget(log[j]) != KeyOf(r) {}
    OverlayEmpty(log, KeyOf(r));
    assert Corrected(r, log) == r;
    forall i | 0 <= i < |db.baskets| ensures db.baskets[i].key != r {
      assert db.baskets[i] in db.baskets;
    }
  }

  // ---------- the close table ----------

  /** The closes of a log sit in the table once each, attached exactly to a row their target names. */
  ghost predicate ClosesMirror(log: seq<Record>, db: Db) {
    && CloseRowsOk(log, db)
    && (forall r :: r in log && IsClose(r) ==> HasClose(db.closes, r))
    && (forall c :: c in db.closes && c.basket.None? && IsUnwind(c.key) ==> Unmatched(db.baskets, UnwindTarget(c.key)))
  }

  ghost predicate Unmatched(rows: seq<BasketRow>, k: Key) {
    forall row :: row in rows ==> RowKey(row) != k
  }

  /** Every close row is a distinct close of the log; if attached, then to the row its target names. */
  ghost predicate CloseRowsOk(log: seq<Record>, db: Db) {
    && (forall c :: c in db.closes ==> CloseRowOk(log, c) && Attached(db.baskets, c))
    && CloseKeysDistinct(db.closes)
  }

  ghost predicate CloseKeysDistinct(closes: seq<CloseRow>) {
    forall i, j :: 0 <= i < j < |closes| ==> closes[i].key != closes[j].key
  }

  ghost predicate CloseRowOk(log: seq<Record>, c: CloseRow) {
    c.key in log && IsClose(c.key) && c.qty as real == QtyOf(c.key)
  }

  ghost predicate Attached(rows: seq<BasketRow>, c: CloseRow) {
    c.basket.Some? ==>
      c.basket.value < |rows| && IsUnwind(c.key) && RowKey(rows[c.basket.value]) == UnwindTarget(c.key)
  }

  lemma RoundExact(n: int)
    ensures Round(n as real) == n
  {}

  lemma ExactQty(r: Record)
    requires CloseOk(r)
    ensures IntQty(Get(r, Qty)).value as real == QtyOf(r) > 0.0
  {
    RoundExact(QtyOf(r).Floor);
  }

  lemma CloseIsNew(p: seq<Record>, log: seq<Record>)
    requires log != [] && p == log[..|log| - 1] && ClosesDistinct(log) && IsClose(log[|log| - 1])
    ensures log[|log| - 1] !in p
  {
    forall x | x in p ensures x != log[|log| - 1] {
      var j :| 0 <= j < |p| && p[j] == x;
      assert log[j] == x;
    }
  }

  /** Inserting a close that is not there yet keeps the rows in order and adds exactly it. */
  lemma InsertNewClose(log: seq<Record>, db: Db, r: Record)
    requires CloseRowsOk(log, db) && r in log && IsClose(r) && CloseOk(r) && !HasClose(db.closes, r)
    ensures CloseRowsOk(log, InsertClose(db, r, r).0)
    ensures InsertClose(db, r, r).1 == Inserted
    ensures InsertClose(db, r, r).0.baskets == db.baskets
    ensures InsertClose(db, r, r).0.closes[..|db.closes|] == db.closes
    ensures |InsertClose(db, r, r).0.closes| == |db.closes| + 1
    ensures InsertClose(db, r, r).0.closes[|db.closes|].key == r
    ensures IsUnwind(r) && InsertClose(db, r, r).0.closes[|db.closes|].basket.None? ==>
      Unmatched(db.baskets, UnwindTarget(r))
  {
    ExactQty(r);
    var db' := InsertClose(db, r, r).0;
    var c := db'.closes[|db.closes|];
    assert db'.closes == db.closes + [c];
    forall i | 0 <= i < |db.closes| ensures db.closes[i].key != r {}
    if c.basket.None? && IsUnwind(r) {
      forall row | row in db.baskets ensures RowKey(row) != UnwindTarget(r) {
        var j :| 0 <= j < |db.baskets| && db.baskets[j] == row;
      }
    }
  }

  lemma ClosesAfterClose(p: seq<Record>, log: seq<Record>, db: Db)
    requires log != [] && p == log[..|log| - 1] && ClosesDistinct(log) && IsClose(log[|log| - 1])
    requires CloseOk(log[|log| - 1])
    requires ClosesMirror(p, db)
    ensures ClosesMirror(log, InsertClose(db, log[|log| - 1], log[|log| - 1]).0)
    ensures InsertClose(db, log[|log| - 1], log[|log| - 1]).0.baskets == db.baskets
  {
    var r := log[|log| - 1];
    assert log == p + [r];
    CloseIsNew(p, log);
    assert !HasClose(db.closes, r) by {
      forall i | 0 <= i < |db.closes| ensures db.closes[i].key != r { assert db.closes[i] in db.closes; }
    }
    InsertNewClose(log, db, r);
    var closes' := InsertClose(db, r, r).0.closes;
    assert closes' == db.closes + [closes'[|db.closes|]];
    forall x | x in log && IsClose(x) ensures HasClose(closes', x) {
      if x == r {
        assert closes'[|db.closes|].key == r;
      } else {
        var i :| 0 <= i < |db.closes| && db.closes[i].key == x;
        assert closes'[i].key == x;
      }
    }
  }

  lemma ClosesAfterOpen(p: seq<Record>, log: seq<Record>, db: Db)
    requires log != [] && p == log[..|log| - 1] && ClosesFollow(log) && IsOpen(log[|log| - 1])
    requires ClosesMirror(p, db)
    ensures ClosesMirror(log, InsertBasket(db, log[|log| - 1], log[|log| - 1]).0)
  {
    var r := log[|log| - 1];
    var db' := InsertBasket(db, r, r).0;
    assert log == p + [r];
    forall c | c in db.closes && IsUnwind(c.key) ensures UnwindTarget(c.key) != KeyOf(r) {
      var j :| 0 <= j < |p| && p[j] == c.key;
      assert log[j] == c.key;
    }
    forall c | c in db'.closes ensures CloseRowOk(log, c) && Attached(db'.baskets, c) {
      assert CloseRowOk(p, c) && Attached(db.baskets, c);
    }
  }

  lemma ClosesAfterOther(p: seq<Record>, log: seq<Record>, db: Db, db': Db)
    requires log != [] && p == log[..|log| - 1] && !IsClose(log[|log| - 1])
    requires ClosesMirror(p, db) && db'.closes == db.closes && |db'.baskets| == |db.baskets|
    requires forall id :: 0 <= id < |db.baskets| ==> RowKey(db'.baskets[id]) == RowKey(db.baskets[id])
    ensures ClosesMirror(log, db')
  {
    assert log == p + [log[|log| - 1]];
    forall c | c in db'.closes ensures CloseRowOk(log, c) && Attached(db'.baskets, c) {
      assert CloseRowOk(p, c) && Attached(db.baskets, c);
    }
    forall c | c in db'.closes && c.basket.None? && IsUnwind(c.key)
      ensures Unmatched(db'.baskets, UnwindTarget(c.key))
    {
      assert Unmatched(db.baskets, UnwindTarget(c.key));
      forall row | row in db'.baskets ensures RowKey(row) != UnwindTarget(c.key) {
        var i :| 0 <= i < |db'.baskets| && db'.baskets[i] == row;
        assert db.baskets[i] in db.baskets;
      }
    }
  }

  /** The tables after mirroring a well-formed log: one row per storable open record, in ledger order,
      carrying all its corrections; every close once, attached to its basket. */
  lemma {:induction false} MirrorState(log: seq<Record>)
    requires WellFormed(log)
    ensures MirrorOnto(EMPTY, log).baskets == Rows(log, log)
    ensures ClosesMirror(log, MirrorOnto(EMPTY, log))
  {
    if log != [] {
      var p, r := log[..|log| - 1], log[|log| - 1];
      WellFormedPrefix(log, |log| - 1);
      MirrorState(p);
      var db := MirrorOnto(EMPTY, p);
      if IsOpen(r) {
        RowsAfterOpen(p, log, db);
        ClosesAfterOpen(p, log, db);
      } else if IsClose(r) {
        RowsAfterOther(p, log);
        ClosesAfterClose(p, log, db);
      } else if IsFix(r) {
        RowsAfterFix(p, log, db);
        ClosesAfterOther(p, log, db, Mirror(db, r));
      } else {
        RowsAfterOther(p, log);
        assert Get(r, Status) == CORRECTION ==> FindRow(db.baskets, FixTarget(r)).None?;
        ClosesAfterOther(p, log, db, Mirror(db, r));
      }
    }
  }

  // ---------- sums of closes ----------

  function SumIn(log: seq<Record>, chosen: set<Record>): real {
    if log == [] then 0.0
    else SumIn(log[..|log| - 1], chosen) + if log[|log| - 1] in chosen then QtyOf(log[|log| - 1]) else 0.0
  }

  lemma {:induction false} SumInSame(log: seq<Record>, a: set<Record>, b: set<Record>)
    requires forall r :: r in log ==> (r in a <==> r in b)
    ensures SumIn(log, a) == SumIn(log, b)
  {
    if log != [] {
      assert log == log[..|log| - 1] + [log[|log| - 1]];
      SumInSame(log[..|log| - 1], a, b);
    }
  }

  lemma {:induction false} SumInAdd(log: seq<Record>, chosen: set<Record>, r: Record)
    requires r in log && r !in chosen
    requires ClosesDistinct(log) && IsClose(r)
    ensures SumIn(log, chosen + {r}) == SumIn(log, chosen) + QtyOf(r)
  {
    var p, x := log[..|log| - 1], log[|log| - 1];
    assert log == p + [x];
    if x == r {
      forall y | y in p ensures y in chosen + {r} <==> y in chosen {
        var i :| 0 <= i < |p| && p[i] == y;
        assert log[i] == y;
      }
      SumInSame(p, chosen + {r}, chosen);
    } else {
      SumInAdd(p, chosen, r);
    }
  }

  function AttachedKeys(closes: seq<CloseRow>, id: nat): set<Record> {
    if closes == [] then {}
    else
      var c := closes[|closes| - 1];
      var before := AttachedKeys(closes[..|closes| - 1], id);
      if c.basket == Some(id) then before + {c.key} else before
  }

  lemma {:induction false} AttachedKeysAre(closes: seq<CloseRow>, id: nat)
    ensures forall x :: x in AttachedKeys(closes, id) <==> exists c :: c in closes && c.basket == Some(id) && c.key == x
  {
    if closes != [] {
      AttachedKeysAre(closes[..|closes| - 1], id);
      assert closes == closes[..|closes| - 1] + [closes[|closes| - 1]];
    }
  }

  /** What a row has been closed by is the total over the ledger records attached to it. */
  lemma {:induction false} ClosedSumIsLedgerSum(log: seq<Record>, closes: seq<CloseRow>, id: nat)
    requires ClosesDistinct(log) && CloseKeysDistinct(closes)
    requires forall c :: c in closes ==> CloseRowOk(log, c)
    ensures ClosedSum(closes, id) as real == SumIn(log, AttachedKeys(closes, id))
  {
    if closes == [] {
      SumInNone(log, AttachedKeys(closes, id));
    } else {
      var n := |closes| - 1;
      var p, c := closes[..n], closes[n];
      assert CloseRowOk(log, c);
      ClosedSumIsLedgerSum(log, p, id);
      if c.basket == Some(id) {
        AttachedKeysAre(p, id);
        forall x | x in p ensures x.key != c.key {
          var i :| 0 <= i < n && p[i] == x;
          assert closes[i] == x;
        }
        SumInAdd(log, AttachedKeys(p, id), c.key);
      }
    }
  }

  lemma {:induction false} SumInNone(log: seq<Record>, chosen: set<Record>)
    requires chosen == {}
    ensures SumIn(log, chosen) == 0.0
  {
    if log != [] { SumInNone(log[..|log| - 1], chosen); }
  }

  function Targeting(log: seq<Record>, k: Key): set<Record> {
    set r | r in log && IsUnwind(r) && UnwindTarget(r) == k
  }

  lemma {:induction false} UnwoundIsLedgerSum(part: seq<Record>, log: seq<Record>, k: Key)
    requires forall r :: r in part ==> r in log
    ensures Unwound(part, k) == SumIn(part, Targeting(log, k))
  {
    if part != [] {
      assert part == part[..|part| - 1] + [part[|part| - 1]];
      UnwoundIsLedgerSum(part[..|part| - 1], log, k);
    }
  }

  /** In a full mirror every row is closed by exactly what the ledger unwound. */
  lemma MirrorClosedSum(log: seq<Record>, db: Db, id: nat)
    requires ClosesDistinct(log) && ClosesMirror(log, db) && id < |db.baskets| && RowKeysDistinct(db.baskets)
    ensures ClosedSum(db.closes, id) as real == Unwound(log, RowKey(db.baskets[id]))
  {
    var k := RowKey(db.baskets[id]);
    ClosedSumIsLedgerSum(log, db.closes, id);
    UnwoundIsLedgerSum(log, log, k);
    AttachedKeysAre(db.closes, id);
    forall x | x in Targeting(log, k) ensures x in AttachedKeys(db.closes, id) {
      var i :| 0 <= i < |db.closes| && db.closes[i].key == x;
      var c := db.closes[i];
      assert c in db.closes && Attached(db.baskets, c) && db.baskets[id] in db.baskets;
      assert c.basket == Some(id);
    }
    forall x | x in AttachedKeys(db.closes, id) ensures x in Targeting(log, k) {
      var c :| c in db.closes && c.basket == Some(id) && c.key == x;
      assert CloseRowOk(log, c) && Attached(db.baskets, c);
    }
    assert AttachedKeys(db.closes, id) == Targeting(log, k);
  }

  // ---------- the reference, read off the raw log ----------

  function RefView(part: seq<Record>, log: seq<Record>): seq<Record> {
    if part == [] then []
    else
      var r := part[|part| - 1];
      var before := RefView(part[..|part| - 1], log);
      if Get(r, Status) != CORRECTION && IsOpen(Corrected(r, log))
      then before + Net(Corrected(r, log), Unwound(log, KeyOf(r))) else before
  }

  lemma UnwoundAppend(log: seq<Record>, r: Record, k: Key)
    ensures Unwound(log + [r], k) == Unwound(log, k) + if IsUnwind(r) && UnwindTarget(r) == k then QtyOf(r) else 0.0
  {
    assert (log + [r])[..|log|] == log;
  }

  lemma NettedAppend(part: seq<Record>, r: Record, all: seq<Record>)
    ensures Netted(part + [r], all)
         == if IsOpen(r) then Netted(part, all) + Net(r, Unwound(all, KeyOf(r))) else Netted(part, all)
  {
    assert (part + [r])[..|part|] == part;
  }

  /** A correction can neither move a record nor turn it into a close. */
  lemma CorrectedKeeps(log: seq<Record>, i: nat)
    requires FixesFollow(log) && FixesOk(log) && i < |log| && Get(log[i], Status) != CORRECTION
    ensures KeyOf(Corrected(log[i], log)) == KeyOf(log[i])
    ensures IsOpen(Corrected(log[i], log)) ==> IsOpen(log[i])
    ensures IsClose(Corrected(log[i], log)) <==> IsClose(log[i])
    ensures !IsOpen(log[i]) ==> Corrected(log[i], log) == log[i]
  {
    if IsOpen(log[i]) {
      OverlayOk(log, KeyOf(log[i]));
      MergeStorable(log[i], Overlay(log, KeyOf(log[i])));
    } else {
      OnlyOpensCorrected(log, i);
    }
  }

  lemma {:induction false} SurvivorsUnwound(part: seq<Record>, log: seq<Record>, k: Key)
    requires FixesFollow(log) && FixesOk(log) && part <= log
    ensures Unwound(Survivors(part, log), k) == Unwound(part, k)
  {
    if part != [] {
      var p, r := part[..|part| - 1], part[|part| - 1];
      SurvivorsUnwound(p, log, k);
      assert r == log[|part| - 1];
      if Get(r, Status) != CORRECTION {
        CorrectedKeeps(log, |part| - 1);
        UnwoundAppend(Survivors(p, log), Corrected(r, log), k);
      }
    }
  }

  lemma {:induction false} SurvivorsNetted(part: seq<Record>, log: seq<Record>)
    requires FixesFollow(log) && FixesOk(log) && part <= log
    ensures Netted(Survivors(part, log), Survivors(log, log)) == RefView(part, log)
  {
    if part != [] {
      var p, r := part[..|part| - 1], part[|part| - 1];
      SurvivorsNetted(p, log);
      assert r == log[|part| - 1];
      if Get(r, Status) != CORRECTION {
        CorrectedKeeps(log, |part| - 1);
        SurvivorsUnwound(log, log, KeyOf(r));
        NettedAppend(Survivors(p, log), Corrected(r, log), Survivors(log, log));
      }
    }
  }

  lemma {:induction false} PlainNetted(part: seq<Record>, log: seq<Record>)
    requires !HasFix(log)
    ensures Netted(part, log) == RefView(part, log)
  {
    if part != [] {
      var r := part[|part| - 1];
      PlainNetted(part[..|part| - 1], log);
      OverlayEmpty(log, KeyOf(r));
      assert Corrected(r, log) == r;
    }
  }

  lemma ReferenceIsRefView(log: seq<Record>)
    requires WellFormed(log)
    ensures OpenBaskets(log) == RefView(log, log)
  {
    if HasFix(log) {
      SurvivorsNetted(log, log);
    } else {
      PlainNetted(log, log);
    }
  }

  // ---------- main results ----------

  lemma ViewAppend(baskets: seq<BasketRow>, row: BasketRow, closes: seq<CloseRow>)
    ensures View(baskets + [row], closes)
         == if row.cols.voided then View(baskets, closes)
            else View(baskets, closes) + Net(row.raw, ClosedSum(closes, |baskets|) as real)
  {
    assert (baskets + [row])[..|baskets|] == baskets;
  }

  /** The part of the reference view that comes from records the basket table takes. */
  function StoredView(part: seq<Record>, log: seq<Record>): seq<Record> {
    if part == [] then []
    else StoredView(part[..|part| - 1], log) + if Storable(part[|part| - 1]) then Entry(part[|part| - 1], log) else []
  }

  /** What the reference view shows of one record. */
  function Entry(r: Record, log: seq<Record>): seq<Record> {
    if Get(r, Status) != CORRECTION && IsOpen(Corrected(r, log))
    then Net(Corrected(r, log), Unwound(log, KeyOf(r))) else []
  }

  lemma {:induction false} ViewIsStoredView(part: seq<Record>, log: seq<Record>, closes: seq<CloseRow>)
    requires FixesFollow(log) && FixesOk(log) && part <= log
    requires forall id :: 0 <= id < |Rows(part, log)| ==>
      ClosedSum(closes, id) as real == Unwound(log, RowKey(Rows(part, log)[id]))
    ensures View(Rows(part, log), closes) == StoredView(part, log)
  {
    if part != [] {
      var p, r := part[..|part| - 1], part[|part| - 1];
      var n := |Rows(p, log)|;
      assert forall id :: 0 <= id < n ==> Rows(part, log)[id] == Rows(p, log)[id];
      ViewIsStoredView(p, log, closes);
      assert r == log[|part| - 1];
      if Get(r, Status) != CORRECTION {
        CorrectedKeeps(log, |part| - 1);
        OverlayOk(log, KeyOf(r));
        MergeStorable(r, Overlay(log, KeyOf(r)));
        if Stored(r, log) {
          assert Rows(part, log)[n] == RowOf(r, log);
          ViewAppend(Rows(p, log), RowOf(r, log), closes);
        }
      }
    }
  }

  /** Nothing of the record is open any more: it was corrected away from open, or unwound in full. */
  predicate Gone(r: Record, log: seq<Record>) {
    !IsOpen(Corrected(r, log)) || (Unwound(log, KeyOf(r)) > 0.0 && QtyOf(Corrected(r, log)) <= Unwound(log, KeyOf(r)))
  }

  /** Nothing is open of any record the basket table refuses. */
  ghost predicate RefusedAreGone(log: seq<Record>) {
    forall i :: 0 <= i < |log| && IsOpen(log[i]) ==> Storable(log[i]) || Gone(log[i], log)
  }

  lemma {:induction false} StoredViewIff(part: seq<Record>, log: seq<Record>)
    requires FixesFollow(log) && FixesOk(log) && part <= log
    ensures |StoredView(part, log)| <= |RefView(part, log)|
    ensures StoredView(part, log) == RefView(part, log) <==>
      forall i :: 0 <= i < |part| && IsOpen(log[i]) ==> Storable(log[i]) || Gone(log[i], log)
    ensures StoredView(part, log) == RefView(part, log) <==> |StoredView(part, log)| == |RefView(part, log)|
  {
    if part != [] {
      var (n, p) := (|part| - 1, part[..|part| - 1]);
      StoredViewIff(p, log);
      assert part[n] == log[n];
      if Get(log[n], Status) != CORRECTION { CorrectedKeeps(log, n); }
      assert RefView(part, log) == RefView(p, log) + Entry(log[n], log);
      assert Entry(log[n], log) == [] <==> !IsOpen(log[n]) || Gone(log[n], log);
    }
  }

  /** Mirroring a well-formed log record by record and reading the database gives the reference view (the
      same baskets, in the same order, with the same scaled quantities and money) if and only if nothing is
      open of any record the basket table refuses. */
  lemma {:induction false} MirrorRefinement(log: seq<Record>)
    requires WellFormed(log)
    ensures var db := MirrorOnto(EMPTY, log); View(db.baskets, db.closes) == OpenBaskets(log) <==> RefusedAreGone(log)
  {
    var db := MirrorOnto(EMPTY, log);
    MirrorState(log);
    RowsDistinct(log, log);
    forall id | 0 <= id < |Rows(log, log)|
      ensures ClosedSum(db.closes, id) as real == Unwound(log, RowKey(Rows(log, log)[id]))
    {
      MirrorClosedSum(log, db, id);
    }
    ViewIsStoredView(log, log, db.closes);
    StoredViewIff(log, log);
    ReferenceIsRefView(log);
  }
}
