/** What the nightly import repairs. The database may have been filled from the ledger however incompletely;
    the theorems say exactly when importing the full ledger makes the open view equal the reference, and what
    a re-run changes. */
module LedgerHealing {
  import opened Core
  import opened Ledger
  import opened LedgerDb
  import opened LedgerMirror
  import opened LedgerHeal

  // ---------- replaying corrections ----------

  lemma {:induction false} OverlayKeys(log: seq<Record>, k: Key)
    ensures forall x :: x in Overlay(log, k) <==>
      exists f :: f in log && IsFix(f) && FixTarget(f) == k && x in FixFields(f)
  {
    if log != [] {
      OverlayKeys(log[..|log| - 1], k);
      assert log == log[..|log| - 1] + [log[|log| - 1]];
    }
  }

  /** Re-applying all corrections of a record over any of them already applied gives the corrected record. */
  lemma OverlaysReplay(r: Record, sub: seq<Record>, log: seq<Record>)
    requires forall f :: f in sub ==> f in log
    ensures Corrected(r, sub) + Overlay(log, KeyOf(r)) == Corrected(r, log)
    ensures Corrected(r, log) + Overlay(log, KeyOf(r)) == Corrected(r, log)
  {
    OverlayKeys(sub, KeyOf(r));
    OverlayKeys(log, KeyOf(r));
  }

  // ---------- tables filled from one ledger ----------

  ghost predicate RowOk(log: seq<Record>, row: BasketRow) {
    && row.key in log && IsOpen(row.key) && RowKey(row) == KeyOf(row.key)
    && Storable(row.raw) && row.cols == BasketCols(row.raw)
  }

  ghost predicate Tables(log: seq<Record>, db: Db) {
    && RowKeysDistinct(db.baskets)
    && (forall row :: row in db.baskets ==> RowOk(log, row))
    && CloseRowsOk(log, db)
  }

  /** The row's record as far as no correction of it goes: laying all of them over the row gives the
      corrected record, whichever have reached it. */
  predicate Based(log: seq<Record>, row: BasketRow) {
    row.raw + Overlay(log, RowKey(row)) == Corrected(row.key, log)
  }

  /** A database that was filled from the log, however completely and in whatever way. */
  ghost predicate Kept(log: seq<Record>, db: Db) {
    Tables(log, db) && forall row :: row in db.baskets ==> Based(log, row)
  }

  lemma SameKeySameRecord(log: seq<Record>, a: Record, b: Record)
    requires OpensDistinct(log) && a in log && b in log && IsOpen(a) && IsOpen(b) && KeyOf(a) == KeyOf(b)
    ensures a == b
  {
    var i :| 0 <= i < |log| && log[i] == a;
    var j :| 0 <= j < |log| && log[j] == b;
  }

  lemma MirroredTables(log: seq<Record>)
    requires WellFormed(log)
    ensures Tables(log, MirrorOnto(EMPTY, log))
  {
    var db := MirrorOnto(EMPTY, log);
    MirrorState(log);
    RowsDistinct(log, log);
    RowsAreStored(log, log);
    forall c | c in db.closes ensures CloseRowOk(log, c) {}
  }

  lemma {:induction false} NonFixesAre(log: seq<Record>)
    ensures forall r :: r in NonFixes(log) <==> r in log && Get(r, Status) != CORRECTION
  {
    if log != [] {
      NonFixesAre(log[..|log| - 1]);
      assert log == log[..|log| - 1] + [log[|log| - 1]];
    }
  }

  lemma CorrectedKeepsRecord(log: seq<Record>, r: Record)
    requires FixesFollow(log) && FixesOk(log) && r in log && Get(r, Status) != CORRECTION
    ensures KeyOf(Corrected(r, log)) == KeyOf(r)
    ensures IsOpen(Corrected(r, log)) ==> IsOpen(r)
    ensures IsClose(Corrected(r, log)) <==> IsClose(r)
    ensures !IsOpen(r) ==> Corrected(r, log) == r
    ensures Storable(r) ==> Storable(Corrected(r, log))
  {
    var i :| 0 <= i < |log| && log[i] == r;
    CorrectedKeeps(log, i);
    OverlayOk(log, KeyOf(r));
    MergeStorable(r, Overlay(log, KeyOf(r)));
  }

  // ---------- pass 1 ----------

  /** Rows beyond the first n hold the fully corrected view of a record that is open in it. */
  ghost predicate NewRows(log: seq<Record>, rows: seq<BasketRow>, n: nat) {
    forall i :: n <= i < |rows| ==> rows[i].raw == Corrected(rows[i].key, log) && IsOpen(rows[i].raw)
  }

  /** What is open in the corrected ledger, the basket table takes. */
  ghost predicate OpenStorable(log: seq<Record>) {
    forall r :: r in log && Get(r, Status) != CORRECTION && IsOpen(Corrected(r, log)) ==> Storable(Corrected(r, log))
  }

  ghost predicate ImportReady(log: seq<Record>) {
    WellFormed(log) && OpenStorable(log) && Aligned(log)
  }

  lemma InsertNewBasket(log: seq<Record>, db: Db, r: Record, n: nat)
    requires OpensDistinct(log) && FixesFollow(log) && FixesOk(log) && OpenStorable(log) && Tables(log, db)
    requires n <= |db.baskets|
    requires NewRows(log, db.baskets, n)
    requires r in log && IsOpen(Corrected(r, log)) && Get(r, Status) != CORRECTION
    ensures var (db', o) := InsertBasket(db, Corrected(r, log), r);
      && o != Raised && Tables(log, db') && db.baskets <= db'.baskets && NewRows(log, db'.baskets, n)
      && db'.closes == db.closes && db'.audit == db.audit && HasBasket(db'.baskets, r)
  {
    CorrectedKeepsRecord(log, r);
    var db' := InsertBasket(db, Corrected(r, log), r).0;
    if !HasBasket(db.baskets, r) {
      var row := db'.baskets[|db.baskets|];
      assert db'.baskets == db.baskets + [row];
      assert row.key == r;
      forall x | x in db.baskets ensures RowKey(x) != KeyOf(r) {
        assert RowOk(log, x);
        if KeyOf(x.key) == KeyOf(r) { SameKeySameRecord(log, x.key, r); }
      }
      forall c | c in db'.closes ensures Attached(db'.baskets, c) { assert Attached(db.baskets, c); }
      forall x | x in db'.baskets ensures RowOk(log, x) { assert x != row ==> x in db.baskets; }
    }
  }

  lemma {:induction false} PassOne(log: seq<Record>, db: Db, raws: seq<Record>)
    requires OpensDistinct(log) && FixesFollow(log) && FixesOk(log) && OpenStorable(log) && Tables(log, db)
    requires forall r :: r in raws ==> r in log && Get(r, Status) != CORRECTION
    ensures var p := Baskets(db, raws, log);
      && p.ok && Tables(log, p.db) && db.baskets <= p.db.baskets && NewRows(log, p.db.baskets, |db.baskets|)
      && p.db.closes == db.closes && p.db.audit == db.audit
    ensures forall r :: r in raws && IsOpen(Corrected(r, log)) ==> HasBasket(Baskets(db, raws, log).db.baskets, r)
  {
    if raws != [] {
      var rest, r := raws[..|raws| - 1], raws[|raws| - 1];
      assert raws == rest + [r];
      PassOne(log, db, rest);
      var mid := Baskets(db, rest, log).db;
      if IsOpen(Corrected(r, log)) {
        InsertNewBasket(log, mid, r, |db.baskets|);
        var last := InsertBasket(mid, Corrected(r, log), r).0;
        forall x | x in rest && HasBasket(mid.baskets, x) ensures HasBasket(last.baskets, x) {
          var i :| 0 <= i < |mid.baskets| && mid.baskets[i].key == x;
          assert last.baskets[i].key == x;
        }
      }
    }
  }

  // ---------- pass 2 ----------

  ghost predicate NewCloses(rows: seq<BasketRow>, closes: seq<CloseRow>, n: nat) {
    forall i :: n <= i < |closes| && closes[i].basket.None? && IsUnwind(closes[i].key) ==>
      Unmatched(rows, UnwindTarget(closes[i].key))
  }

  lemma {:induction false} PassTwo(log: seq<Record>, db: Db, raws: seq<Record>)
    requires FixesFollow(log) && FixesOk(log) && ClosesOk(log) && CloseRowsOk(log, db)
    requires forall r :: r in raws ==> r in log && Get(r, Status) != CORRECTION
    ensures var p := Closes(db, raws, log);
      && p.ok && CloseRowsOk(log, p.db) && db.closes <= p.db.closes && NewCloses(db.baskets, p.db.closes, |db.closes|)
      && p.db.baskets == db.baskets && p.db.audit == db.audit
    ensures forall r :: r in raws && IsClose(r) ==> HasClose(Closes(db, raws, log).db.closes, r)
  {
    if raws != [] {
      var rest, r := raws[..|raws| - 1], raws[|raws| - 1];
      assert raws == rest + [r];
      PassTwo(log, db, rest);
      CorrectedKeepsRecord(log, r);
      if IsClose(r) {
        var mid := Closes(db, rest, log).db;
        var j :| 0 <= j < |log| && log[j] == r;
        assert CloseOk(r);
        if !HasClose(mid.closes, r) { InsertNewClose(log, mid, r); }
        var last := InsertClose(mid, r, r).0;
        assert HasClose(last.closes, r);
        forall x | x in rest && HasClose(mid.closes, x) ensures HasClose(last.closes, x) {
          var i :| 0 <= i < |mid.closes| && mid.closes[i].key == x;
          assert last.closes[i].key == x;
        }
      }
    }
  }

  // ---------- pass 3 ----------

  function Merged(row: BasketRow, f: Record): BasketRow {
    if Storable(row.raw + f) then row.(cols := BasketCols(row.raw + f), raw := row.raw + f) else row
  }

  function Overlaid(row: BasketRow, part: seq<Record>, table: map<Key, Value>): BasketRow {
    if RowKey(row) in table && table[RowKey(row)] == OPEN then Merged(row, Overlay(part, RowKey(row))) else row
  }

  lemma MergeAssociates(a: Record, b: Record, c: Record)
    ensures (a + b) + c == a + (b + c)
  {}

  lemma {:induction false} PatchMerges(row: BasketRow, o: Record, f: Record)
    requires RowKey(row) == FixTarget(f) && Storable(row.raw + o) && Storable(row.raw + (o + FixFields(f)))
    ensures Patch(Merged(row, o), f) == Merged(row, o + FixFields(f))
  {
    MergeAssociates(row.raw, o, FixFields(f));
  }

  lemma OverlayStorable(row: BasketRow, part: seq<Record>)
    requires part != [] && (IsFix(part[|part| - 1]) ==> FieldsOk(FixFields(part[|part| - 1])))
    requires Storable(row.raw + Overlay(part[..|part| - 1], RowKey(row)))
    ensures Storable(row.raw + Overlay(part, RowKey(row)))
  {
    var f, o := part[|part| - 1], Overlay(part[..|part| - 1], RowKey(row));
    if IsFix(f) && FixTarget(f) == RowKey(row) {
      MergeAssociates(row.raw, o, FixFields(f));
      MergeStorable(row.raw + o, FixFields(f));
    }
  }

  lemma {:induction false} OverlaidStep(row: BasketRow, part: seq<Record>, table: map<Key, Value>)
    requires part != [] && (IsFix(part[|part| - 1]) ==> FieldsOk(FixFields(part[|part| - 1])))
    requires Storable(row.raw + Overlay(part[..|part| - 1], RowKey(row)))
    ensures Storable(row.raw + Overlay(part, RowKey(row)))
    ensures var f, before := part[|part| - 1], Overlaid(row, part[..|part| - 1], table);
      Overlaid(row, part, table)
      == if IsFix(f) && FixTarget(f) in table && table[FixTarget(f)] == OPEN then Patch(before, f) else before
  {
    var f := part[|part| - 1];
    OverlayStorable(row, part);
    if IsFix(f) && FixTarget(f) == RowKey(row) {
      PatchMerges(row, Overlay(part[..|part| - 1], RowKey(row)), f);
    }
  }

  /** A correction pass leaves every close alone and lays each row's corrections over it in order; rows
      whose key the table does not call open keep their content. */
  lemma {:induction false} PassThree(log: seq<Record>, db: Db, part: seq<Record>, table: map<Key, Value>)
    requires FixesOk(part) && Tables(log, db)
    ensures var p := Corrections(db, part, table);
      && p.ok && Tables(log, p.db) && p.db.closes == db.closes && |p.db.baskets| == |db.baskets|
      && |p.db.audit| >= |db.audit|
    ensures forall i :: 0 <= i < |db.baskets| ==>
      Corrections(db, part, table).db.baskets[i] == Overlaid(db.baskets[i], part, table)
    ensures forall i :: 0 <= i < |db.baskets| ==> Storable(db.baskets[i].raw + Overlay(part, RowKey(db.baskets[i])))
  {
    if part == [] {
      forall i | 0 <= i < |db.baskets|
        ensures db.baskets[i].raw + map[] == db.baskets[i].raw && RowOk(log, db.baskets[i])
      {
        assert db.baskets[i] in db.baskets;
      }
    } else {
      var rest, f := part[..|part| - 1], part[|part| - 1];
      PassThree(log, db, rest, table);
      var mid := Corrections(db, rest, table).db;
      forall i | 0 <= i < |db.baskets|
        ensures Storable(db.baskets[i].raw + Overlay(part, RowKey(db.baskets[i])))
        ensures Overlaid(db.baskets[i], part, table)
             == if IsFix(f) && FixTarget(f) in table && table[FixTarget(f)] == OPEN
                then Patch(mid.baskets[i], f) else mid.baskets[i]
      {
        assert IsFix(f) ==> FieldsOk(FixFields(f));
        OverlaidStep(db.baskets[i], part, table);
      }
      if IsFix(f) && FixTarget(f) in table && table[FixTarget(f)] == OPEN {
        PatchTables(log, mid, f);
        PatchAllAt(mid.baskets, f);
      }
    }
  }

  lemma PatchRowOk(log: seq<Record>, row: BasketRow, f: Record)
    requires RowOk(log, row)
    ensures RowOk(log, Patch(row, f)) && RowKey(Patch(row, f)) == RowKey(row)
  {}

  lemma PatchRows(log: seq<Record>, rows: seq<BasketRow>, f: Record)
    requires RowKeysDistinct(rows) && forall row :: row in rows ==> RowOk(log, row)
    ensures RowKeysDistinct(PatchAll(rows, f)) && forall row :: row in PatchAll(rows, f) ==> RowOk(log, row)
    ensures |PatchAll(rows, f)| == |rows|
    ensures forall i :: 0 <= i < |rows| ==> RowKey(PatchAll(rows, f)[i]) == RowKey(rows[i])
  {
    var all := PatchAll(rows, f);
    PatchAllAt(rows, f);
    forall i | 0 <= i < |rows| ensures RowKey(all[i]) == RowKey(rows[i]) && RowOk(log, all[i]) {
      assert rows[i] in rows;
      PatchRowOk(log, rows[i], f);
    }
  }

  lemma PatchTables(log: seq<Record>, db: Db, f: Record)
    requires IsFix(f) && FieldsOk(FixFields(f)) && Tables(log, db)
    ensures Correct(db, f).0.baskets == PatchAll(db.baskets, f)
    ensures Tables(log, Correct(db, f).0) && Correct(db, f).0.closes == db.closes && !Correct(db, f).1.Failed?
    ensures |Correct(db, f).0.baskets| == |db.baskets| && |Correct(db, f).0.audit| >= |db.audit|
  {
    forall row | row in db.baskets ensures Storable(row.raw) && row.cols == BasketCols(row.raw) {
      assert RowOk(log, row);
    }
    CorrectPatches(db, f);
    PatchRows(log, db.baskets, f);
    forall c | c in db.closes ensures CloseRowOk(log, c) && Attached(PatchAll(db.baskets, f), c) {
      assert Attached(db.baskets, c);
    }
    CorrectOnlyAppends(db, f);
  }

  lemma CorrectOnlyAppends(db: Db, f: Record)
    ensures |Correct(db, f).0.audit| >= |db.audit|
  {}

  // ---------- what the table of statuses says ----------

  lemma {:induction false} StatusTableIs(recs: seq<Record>, k: Key, status: Value)
    requires forall r :: r in recs && KeyOf(r) == k ==> Get(r, Status) == status
    ensures (exists r :: r in recs && KeyOf(r) == k) ==> k in StatusTable(recs) && StatusTable(recs)[k] == status
  {
    if recs != [] {
      var rest := recs[..|recs| - 1];
      assert recs == rest + [recs[|recs| - 1]];
      StatusTableIs(rest, k, status);
    }
  }

  /** For a record that has corrections, the table gives the status of its corrected view. */
  lemma TableTells(log: seq<Record>, r: Record, f: Record)
    requires ImportReady(log) && r in log && IsOpen(r) && f in log && IsFix(f) && FixTarget(f) == KeyOf(r)
    ensures KeyOf(r) in StatusTable(Folded(log))
    ensures StatusTable(Folded(log))[KeyOf(r)] == Get(Corrected(r, log), Status)
  {
    FoldedIsCorrected(log);
    NonFixesAre(log);
    CorrectedKeepsRecord(log, r);
    forall x | x in Folded(log) && KeyOf(x) == KeyOf(r) ensures x == Corrected(r, log) {
      var i :| 0 <= i < |Folded(log)| && Folded(log)[i] == x;
      var raw := NonFixes(log)[i];
      assert raw in NonFixes(log);
      CorrectedKeepsRecord(log, raw);
      var a :| 0 <= a < |log| && log[a] == raw;
      var b :| 0 <= b < |log| && log[b] == f;
      assert IsOpen(log[a]);
      SameKeySameRecord(log, raw, r);
    }
    StatusTableIs(Folded(log), KeyOf(r), Get(Corrected(r, log), Status));
    var i :| 0 <= i < |NonFixes(log)| && NonFixes(log)[i] == r;
    assert Folded(log)[i] in Folded(log) && KeyOf(Folded(log)[i]) == KeyOf(r);
  }

  /** Pass 3 brings exactly the rows that are open in the corrected view up to it. */
  lemma OverlaidIs(log: seq<Record>, row: BasketRow)
    requires ImportReady(log) && RowOk(log, row) && Storable(row.raw + Overlay(log, RowKey(row)))
    ensures Overlaid(row, log, StatusTable(Folded(log)))
         == if IsOpen(Corrected(row.key, log)) then Merged(row, Overlay(log, RowKey(row))) else row
  {
    var k := RowKey(row);
    if f :| f in log && IsFix(f) && FixTarget(f) == k {
      TableTells(log, row.key, f);
    } else {
      OverlayEmpty(log, k);
      assert row.raw + Overlay(log, k) == row.raw;
    }
  }

  // ---------- the database after the import ----------

  predicate Orphaned(closes: seq<CloseRow>, u: Record) {
    exists i :: 0 <= i < |closes| && closes[i].key == u && closes[i].basket.None?
  }

  /** The unwinds of r that end up attached to its row: one that was stored while its basket was missing is
      an orphan, and its key keeps the import from inserting it again. */
  ghost function StillAttached(r: Record, db0: Db, log: seq<Record>): set<Record> {
    set u | u in log && IsUnwind(u) && UnwindTarget(u) == KeyOf(r) && !Orphaned(db0.closes, u)
  }

  ghost function AttachedQty(r: Record, db0: Db, log: seq<Record>): real {
    SumIn(log, StillAttached(r, db0, log))
  }

  /** The content of the row of r. */
  function RawIn(rows: seq<BasketRow>, r: Record): Record {
    if rows == [] then r
    else if rows[|rows| - 1].key == r then rows[|rows| - 1].raw else RawIn(rows[..|rows| - 1], r)
  }

  lemma {:induction false} RawInIs(rows: seq<BasketRow>, row: BasketRow)
    requires row in rows && forall i, j :: 0 <= i < j < |rows| ==> rows[i].key != rows[j].key
    ensures RawIn(rows, row.key) == row.raw
  {
    var init, last := rows[..|rows| - 1], rows[|rows| - 1];
    var k :| 0 <= k < |rows| && rows[k] == row;
    if row != last {
      assert init[k] == row;
      RawInIs(init, row);
    }
  }

  lemma RecordsDistinct(log: seq<Record>, db: Db)
    requires Tables(log, db)
    ensures forall i, j :: 0 <= i < j < |db.baskets| ==> db.baskets[i].key != db.baskets[j].key
  {
    forall i | 0 <= i < |db.baskets| ensures RowKey(db.baskets[i]) == KeyOf(db.baskets[i].key) {
      assert db.baskets[i] in db.baskets && RowOk(log, db.baskets[i]);
    }
  }

  predicate HasRow(r: Record, db0: Db, log: seq<Record>) {
    HasBasket(db0.baskets, r) || IsOpen(Corrected(r, log))
  }

  /** The content of the row of r after the import: the corrected record if that is open, otherwise what it
      was before. */
  function RowContent(r: Record, db0: Db, log: seq<Record>): Record {
    if IsOpen(Corrected(r, log)) then Corrected(r, log) else RawIn(db0.baskets, r)
  }

  ghost predicate HealedState(db0: Db, log: seq<Record>, db: Db) {
    && Tables(log, db)
    && (forall row :: row in db.baskets ==> HasRow(row.key, db0, log) && row.raw == RowContent(row.key, db0, log))
    && (forall r :: r in log && IsOpen(r) && HasRow(r, db0, log) ==> HasBasket(db.baskets, r))
    && (forall r :: r in log && IsClose(r) ==> HasClose(db.closes, r))
    && (forall id :: 0 <= id < |db.baskets| ==>
          ClosedSum(db.closes, id) as real == AttachedQty(db.baskets[id].key, db0, log))
  }

  ghost predicate Ready(db0: Db, log: seq<Record>) {
    ImportReady(log) && Kept(log, db0)
  }

  lemma RowsAfterPassOne(db0: Db, log: seq<Record>, one: Db)
    requires Ready(db0, log) && one == Baskets(db0, NonFixes(log), log).db
    ensures Baskets(db0, NonFixes(log), log).ok && Tables(log, one)
    ensures db0.baskets <= one.baskets && one.closes == db0.closes
    ensures NewRows(log, one.baskets, |db0.baskets|)
    ensures forall r :: r in log && IsOpen(r) && HasRow(r, db0, log) ==> HasBasket(one.baskets, r)
  {
    NonFixesAre(log);
    PassOne(log, db0, NonFixes(log));
    forall r | r in log && IsOpen(r) && HasRow(r, db0, log) ensures HasBasket(one.baskets, r) {
      if !IsOpen(Corrected(r, log)) {
        var i :| 0 <= i < |db0.baskets| && db0.baskets[i].key == r;
        assert one.baskets[i].key == r;
      }
    }
  }

  /** Pass 2 has run: what was there comes first in the tables, and every close is there. */
  ghost predicate ClosesFilled(db0: Db, log: seq<Record>, two: Db) {
    && Tables(log, two) && db0.baskets <= two.baskets && db0.closes <= two.closes
    && NewCloses(two.baskets, two.closes, |db0.closes|)
    && (forall r :: r in log && IsClose(r) ==> HasClose(two.closes, r))
  }

  lemma AttachedIsNotOrphan(db0: Db, log: seq<Record>, two: Db, id: nat, c: CloseRow)
    requires ClosesFilled(db0, log, two) && id < |two.baskets| && c in two.closes && c.basket == Some(id)
    ensures c.key in StillAttached(two.baskets[id].key, db0, log)
  {
    var row := two.baskets[id];
    assert row in two.baskets && RowOk(log, row);
    assert CloseRowOk(log, c) && Attached(two.baskets, c);
    if Orphaned(db0.closes, c.key) {
      var i :| 0 <= i < |db0.closes| && db0.closes[i].key == c.key && db0.closes[i].basket.None?;
      assert two.closes[i] == db0.closes[i];
      OneClosePerKey(two.closes, two.closes[i], c);
    }
  }

  lemma NotOrphanIsAttached(db0: Db, log: seq<Record>, two: Db, id: nat, u: Record)
    requires ClosesFilled(db0, log, two) && id < |two.baskets| && u in StillAttached(two.baskets[id].key, db0, log)
    ensures exists c :: c in two.closes && c.basket == Some(id) && c.key == u
  {
    var row := two.baskets[id];
    assert row in two.baskets && RowOk(log, row);
    var i :| 0 <= i < |two.closes| && two.closes[i].key == u;
    var c := two.closes[i];
    assert c in two.closes && Attached(two.baskets, c);
    if i < |db0.closes| { assert db0.closes[i] == c; }
    assert c.basket.Some?;
    assert c.basket == Some(id);
  }

  /** After pass 2 the closes attached to the row of r are exactly the not orphaned ones. */
  lemma ClosesAfterPassTwo(db0: Db, log: seq<Record>, two: Db, id: nat)
    requires ClosesFilled(db0, log, two) && id < |two.baskets|
    ensures AttachedKeys(two.closes, id) == StillAttached(two.baskets[id].key, db0, log)
  {
    var r := two.baskets[id].key;
    AttachedKeysAre(two.closes, id);
    forall u | u in AttachedKeys(two.closes, id) ensures u in StillAttached(r, db0, log) {
      var c :| c in two.closes && c.basket == Some(id) && c.key == u;
      AttachedIsNotOrphan(db0, log, two, id, c);
    }
    forall u | u in StillAttached(r, db0, log) ensures u in AttachedKeys(two.closes, id) {
      NotOrphanIsAttached(db0, log, two, id, u);
    }
  }

  lemma OneClosePerKey(closes: seq<CloseRow>, c: CloseRow, d: CloseRow)
    requires CloseKeysDistinct(closes) && c in closes && d in closes && c.key == d.key
    ensures c == d
  {
    var i :| 0 <= i < |closes| && closes[i] == c;
    var j :| 0 <= j < |closes| && closes[j] == d;
  }

  /** The import never stops on a ready ledger, and this is the database it leaves. */
  lemma ImportState(db0: Db, log: seq<Record>)
    requires Ready(db0, log)
    ensures Import(db0, log).ok && HealedState(db0, log, Import(db0, log).db)
  {
    var one := Baskets(db0, NonFixes(log), log).db;
    RowsAfterPassOne(db0, log, one);
    NonFixesAre(log);
    PassTwo(log, one, NonFixes(log));
    var two := Closes(one, NonFixes(log), log).db;
    var table := StatusTable(Folded(log));
    PassThree(log, two, log, table);
    var fin := Corrections(two, log, table).db;
    forall i | 0 <= i < |fin.baskets|
      ensures fin.baskets[i].key == two.baskets[i].key
      ensures HasRow(fin.baskets[i].key, db0, log)
      ensures fin.baskets[i].raw == RowContent(fin.baskets[i].key, db0, log)
    {
      FinalRow(db0, log, one, two.baskets[i], i);
    }
    forall r | r in log && IsOpen(r) && HasRow(r, db0, log) ensures HasBasket(fin.baskets, r) {
      var i :| 0 <= i < |one.baskets| && one.baskets[i].key == r;
      assert fin.baskets[i].key == r;
    }
    forall id | 0 <= id < |fin.baskets|
      ensures ClosedSum(fin.closes, id) as real == AttachedQty(fin.baskets[id].key, db0, log)
    {
      ClosesAfterPassTwo(db0, log, two, id);
      ClosedSumIsLedgerSum(log, two.closes, id);
    }
  }

  lemma {:induction false} FinalRow(db0: Db, log: seq<Record>, one: Db, row: BasketRow, i: nat)
    requires Ready(db0, log) && i < |one.baskets| && one.baskets[i] == row && RowOk(log, row)
    requires db0.baskets <= one.baskets && NewRows(log, one.baskets, |db0.baskets|)
    requires Storable(row.raw + Overlay(log, RowKey(row)))
    ensures var x := Overlaid(row, log, StatusTable(Folded(log)));
      x.key == row.key && HasRow(row.key, db0, log) && x.raw == RowContent(row.key, db0, log)
  {
    OverlaidIs(log, row);
    if i < |db0.baskets| {
      assert db0.baskets[i] == row;
      assert row in db0.baskets && Based(log, row);
      RecordsDistinct(log, db0);
      RawInIs(db0.baskets, row);
    } else {
      OverlaysReplay(row.key, log, log);
    }
  }

  // ---------- main results ----------

  lemma {:induction false} ViewMembers(baskets: seq<BasketRow>, closes: seq<CloseRow>)
    ensures forall x :: x in View(baskets, closes) <==>
      exists id :: 0 <= id < |baskets| && Shows(baskets, closes, id, x)
  {
    if baskets != [] {
      var n := |baskets| - 1;
      var rest := baskets[..n];
      ViewMembers(rest, closes);
      forall id, x | 0 <= id < n ensures Shows(baskets, closes, id, x) <==> Shows(rest, closes, id, x) {}
      forall x ensures x in View(baskets, closes) <==> x in View(rest, closes) || Shows(baskets, closes, n, x) {}
    }
  }

  predicate Shows(baskets: seq<BasketRow>, closes: seq<CloseRow>, id: nat, x: Record)
    requires id < |baskets|
  {
    !baskets[id].cols.voided && x in Net(baskets[id].raw, ClosedSum(closes, id) as real)
  }

  /** What the reference lists for one record of the ledger. */
  function Reference(r: Record, log: seq<Record>): seq<Record> {
    if IsOpen(Corrected(r, log)) then Net(Corrected(r, log), Unwound(log, KeyOf(r))) else []
  }

  /** What the imported database lists for it. */
  ghost function Healed(r: Record, db0: Db, log: seq<Record>): seq<Record> {
    if HasRow(r, db0, log) && IsOpen(RowContent(r, db0, log))
    then Net(RowContent(r, db0, log), AttachedQty(r, db0, log)) else []
  }

  lemma {:induction false} RefMembers(part: seq<Record>, log: seq<Record>)
    ensures forall x :: x in RefView(part, log) <==>
      exists r :: r in part && Get(r, Status) != CORRECTION && x in Reference(r, log)
  {
    if part != [] {
      RefMembers(part[..|part| - 1], log);
      assert part == part[..|part| - 1] + [part[|part| - 1]];
    }
  }

  lemma ReferenceMembers(log: seq<Record>, x: Record)
    requires WellFormed(log)
    ensures x in OpenBaskets(log) <==> exists r :: r in log && IsOpen(r) && x in Reference(r, log)
  {
    ReferenceIsRefView(log);
    RefMembers(log, log);
    forall r | r in log && Get(r, Status) != CORRECTION && x in Reference(r, log) ensures IsOpen(r) {
      CorrectedKeepsRecord(log, r);
    }
  }

  /** A row shows what its record's healed state says. */
  lemma RowShows(db0: Db, log: seq<Record>, db: Db, id: nat, x: Record)
    requires HealedState(db0, log, db) && id < |db.baskets|
    ensures Shows(db.baskets, db.closes, id, x) <==> x in Healed(db.baskets[id].key, db0, log)
    ensures db.baskets[id].key in log && IsOpen(db.baskets[id].key)
  {
    assert db.baskets[id] in db.baskets && RowOk(log, db.baskets[id]);
  }

  lemma HealedHasRow(db0: Db, log: seq<Record>, db: Db, r: Record, x: Record)
    requires HealedState(db0, log, db) && r in log && IsOpen(r) && x in Healed(r, db0, log)
    ensures exists id :: 0 <= id < |db.baskets| && Shows(db.baskets, db.closes, id, x)
  {
    var id :| 0 <= id < |db.baskets| && db.baskets[id].key == r;
    RowShows(db0, log, db, id, x);
  }

  lemma {:induction false} HealedMembers(db0: Db, log: seq<Record>, db: Db, x: Record)
    requires HealedState(db0, log, db)
    ensures x in View(db.baskets, db.closes) <==> exists r :: r in log && IsOpen(r) && x in Healed(r, db0, log)
  {
    ViewMembers(db.baskets, db.closes);
    if id :| 0 <= id < |db.baskets| && Shows(db.baskets, db.closes, id, x) { RowShows(db0, log, db, id, x); }
    if r :| r in log && IsOpen(r) && x in Healed(r, db0, log) { HealedHasRow(db0, log, db, r, x); }
  }

  lemma {:induction false} SumInMonotone(log: seq<Record>, a: set<Record>, b: set<Record>)
    requires a <= b && forall r :: r in log && r in b ==> QtyOf(r) > 0.0
    ensures 0.0 <= SumIn(log, a) <= SumIn(log, b)
  {
    if log != [] {
      assert log == log[..|log| - 1] + [log[|log| - 1]];
      SumInMonotone(log[..|log| - 1], a, b);
    }
  }

  lemma AttachedAtMostUnwound(r: Record, db0: Db, log: seq<Record>)
    requires ClosesOk(log)
    ensures 0.0 <= AttachedQty(r, db0, log) <= Unwound(log, KeyOf(r))
  {
    UnwoundIsLedgerSum(log, log, KeyOf(r));
    var all := Targeting(log, KeyOf(r));
    forall u | u in log && u in all ensures QtyOf(u) > 0.0 {
      var j :| 0 <= j < |log| && log[j] == u;
      ExactQty(u);
    }
    SumInMonotone(log, StillAttached(r, db0, log), all);
  }

  /** Two amounts closed net the same exactly when they are equal or the smaller already closes it all. */
  lemma NetSame(r: Record, a: real, u: real)
    requires 0.0 <= a <= u && QtyOf(r) > 0.0
    ensures Net(r, a) == Net(r, u) <==> a == u || QtyOf(r) <= a
  {
    if a < u && QtyOf(r) > a && QtyOf(r) > u {
      assert QtyOf(Net(r, a)[0]) == QtyOf(r) - a;
      assert QtyOf(Net(r, u)[0]) == QtyOf(r) - u;
    }
  }

  /** When the import repairs the record r. Either r is open in the corrected ledger, and no unwind of it is
      an orphan (or the others close it anyway); or it is not, and the database does not hold it open (or
      holds it closed in full). */
  ghost predicate Heals(r: Record, db0: Db, log: seq<Record>) {
    if IsOpen(Corrected(r, log)) then
      || AttachedQty(r, db0, log) == Unwound(log, KeyOf(r))
      || QtyOf(Corrected(r, log)) <= AttachedQty(r, db0, log)
    else
      || !(HasBasket(db0.baskets, r) && IsOpen(RawIn(db0.baskets, r)))
      || QtyOf(RawIn(db0.baskets, r)) <= AttachedQty(r, db0, log)
  }

  /** What the row of r holds. */
  lemma RawIsKept(db0: Db, log: seq<Record>, r: Record)
    requires Kept(log, db0) && FixesOk(log) && HasBasket(db0.baskets, r)
    ensures Storable(RawIn(db0.baskets, r)) && KeyOf(RawIn(db0.baskets, r)) == KeyOf(r)
  {
    var i :| 0 <= i < |db0.baskets| && db0.baskets[i].key == r;
    var row := db0.baskets[i];
    assert row in db0.baskets && RowOk(log, row) && Based(log, row);
    RecordsDistinct(log, db0);
    RawInIs(db0.baskets, row);
    OverlayOk(log, KeyOf(r));
    var o := Overlay(log, KeyOf(r));
    assert Get(row.raw + o, Rel) == Get(row.raw, Rel) && Get(row.raw + o, Ts) == Get(row.raw, Ts);
    assert Get(r + o, Rel) == Get(r, Rel) && Get(r + o, Ts) == Get(r, Ts);
  }

  /** Quantities within a millionth of a positive integer are positive. */
  lemma StorableIsPositive(r: Record)
    requires Storable(r)
    ensures QtyOf(r) > 0.0
  {}

  lemma HealsIffSame(r: Record, db0: Db, log: seq<Record>)
    requires Ready(db0, log) && r in log && IsOpen(r)
    ensures Heals(r, db0, log) <==> Healed(r, db0, log) == Reference(r, log)
  {
    AttachedAtMostUnwound(r, db0, log);
    if IsOpen(Corrected(r, log)) {
      StorableIsPositive(Corrected(r, log));
      NetSame(Corrected(r, log), AttachedQty(r, db0, log), Unwound(log, KeyOf(r)));
    } else if HasBasket(db0.baskets, r) {
      RawIsKept(db0, log, r);
      StorableIsPositive(RawIn(db0.baskets, r));
    }
  }

  lemma NetKeepsKey(r: Record, closed: real)
    ensures |Net(r, closed)| <= 1
    ensures forall x :: x in Net(r, closed) ==> KeyOf(x) == KeyOf(r)
  {}

  /** Each record lists at most one entry, under its own key, in both views. */
  lemma OneEntryPerKey(r: Record, db0: Db, log: seq<Record>)
    requires Ready(db0, log) && r in log && IsOpen(r)
    ensures |Reference(r, log)| <= 1 && |Healed(r, db0, log)| <= 1
    ensures forall x :: x in Reference(r, log) || x in Healed(r, db0, log) ==> KeyOf(x) == KeyOf(r)
  {
    CorrectedKeepsRecord(log, r);
    NetKeepsKey(Corrected(r, log), Unwound(log, KeyOf(r)));
    NetKeepsKey(RowContent(r, db0, log), AttachedQty(r, db0, log));
    if HasBasket(db0.baskets, r) { RawIsKept(db0, log, r); }
  }

  function AsSet(view: seq<Record>): set<Record> {
    set x | x in view
  }

  /** The import heals exactly when it heals every record: over any database filled from the ledger,
      however incompletely, the imported view equals the reference as a keyed set if and only if Heals holds
      for every open record. */
  lemma HealExactly(db0: Db, log: seq<Record>)
    requires Ready(db0, log)
    ensures var p := Import(db0, log);
      && p.ok
      && (AsSet(View(p.db.baskets, p.db.closes)) == AsSet(OpenBaskets(log))
          <==> forall r :: r in log && IsOpen(r) ==> Heals(r, db0, log))
  {
    var db := Import(db0, log).db;
    ImportState(db0, log);
    var got, want := AsSet(View(db.baskets, db.closes)), AsSet(OpenBaskets(log));
    forall x
      ensures x in got <==> exists r :: r in log && IsOpen(r) && x in Healed(r, db0, log)
      ensures x in want <==> exists r :: r in log && IsOpen(r) && x in Reference(r, log)
    {
      HealedMembers(db0, log, db, x);
      ReferenceMembers(log, x);
    }
    if forall r :: r in log && IsOpen(r) ==> Heals(r, db0, log) {
      forall r | r in log && IsOpen(r) ensures Healed(r, db0, log) == Reference(r, log) { HealsIffSame(r, db0, log); }
      assert got == want;
    }
    if got == want {
      forall r | r in log && IsOpen(r) ensures Heals(r, db0, log) {
        SameEntries(r, db0, log, got);
        HealsIffSame(r, db0, log);
      }
    }
  }

  lemma {:induction false} OwnEntry(r: Record, s: Record, x: Record, db0: Db, log: seq<Record>)
    requires Ready(db0, log) && r in log && IsOpen(r) && s in log && IsOpen(s)
    requires x in Healed(r, db0, log) || x in Reference(r, log)
    requires x in Healed(s, db0, log) || x in Reference(s, log)
    ensures r == s
  {
    OneEntryPerKey(r, db0, log);
    OneEntryPerKey(s, db0, log);
    SameKeySameRecord(log, r, s);
  }

  lemma SameEntries(r: Record, db0: Db, log: seq<Record>, view: set<Record>)
    requires Ready(db0, log) && r in log && IsOpen(r)
    requires forall x :: x in view <==> exists s :: s in log && IsOpen(s) && x in Healed(s, db0, log)
    requires forall x :: x in view <==> exists s :: s in log && IsOpen(s) && x in Reference(s, log)
    ensures Healed(r, db0, log) == Reference(r, log)
  {
    var h, f := Healed(r, db0, log), Reference(r, log);
    forall x | x in h ensures x in f {
      assert x in view;
      var s :| s in log && IsOpen(s) && x in Reference(s, log);
      OwnEntry(r, s, x, db0, log);
    }
    forall x | x in f ensures x in h {
      assert x in view;
      var s :| s in log && IsOpen(s) && x in Healed(s, db0, log);
      OwnEntry(r, s, x, db0, log);
    }
    OneEntryPerKey(r, db0, log);
    AtMostOne(h, f);
  }

  lemma AtMostOne(a: seq<Record>, b: seq<Record>)
    requires |a| <= 1 && |b| <= 1 && forall x :: x in a <==> x in b
    ensures a == b
  {
    if a != [] { assert a[0] in b; }
    if b != [] { assert b[0] in a; }
  }

  // ---------- running the import again ----------

  lemma {:induction false} BasketsPresent(db: Db, raws: seq<Record>, log: seq<Record>)
    requires FixesFollow(log) && FixesOk(log) && OpenStorable(log)
    requires forall r :: r in raws ==> r in log && Get(r, Status) != CORRECTION
    requires forall r :: r in raws && IsOpen(Corrected(r, log)) ==> HasBasket(db.baskets, r)
    ensures Baskets(db, raws, log) == Progress(db, true)
  {
    if raws != [] {
      var r := raws[|raws| - 1];
      assert raws == raws[..|raws| - 1] + [r];
      BasketsPresent(db, raws[..|raws| - 1], log);
      CorrectedKeepsRecord(log, r);
    }
  }

  lemma {:induction false} ClosesPresent(db: Db, raws: seq<Record>, log: seq<Record>)
    requires FixesFollow(log) && FixesOk(log) && ClosesOk(log)
    requires forall r :: r in raws ==> r in log && Get(r, Status) != CORRECTION
    requires forall r :: r in raws && IsClose(r) ==> HasClose(db.closes, r)
    ensures Closes(db, raws, log) == Progress(db, true)
  {
    if raws != [] {
      var r := raws[|raws| - 1];
      assert raws == raws[..|raws| - 1] + [r];
      ClosesPresent(db, raws[..|raws| - 1], log);
      CorrectedKeepsRecord(log, r);
      var i :| 0 <= i < |log| && log[i] == r;
    }
  }

  predicate Applies(f: Record, table: map<Key, Value>) {
    IsFix(f) && FixTarget(f) in table && table[FixTarget(f)] == OPEN
  }

  /** The correction already shows in every row it addresses. */
  ghost predicate QuietOn(db: Db, f: Record) {
    forall row :: row in db.baskets && RowKey(row) == FixTarget(f) ==> row.raw + FixFields(f) == row.raw
  }

  ghost predicate Quiet(db: Db, part: seq<Record>, table: map<Key, Value>) {
    forall f :: f in part && Applies(f, table) ==> QuietOn(db, f)
  }

  /** A correction pass writes nothing exactly when each correction already shows in the row it addresses. */
  lemma {:induction false} QuietCorrections(log: seq<Record>, db: Db, part: seq<Record>, table: map<Key, Value>)
    requires FixesOk(part) && Tables(log, db)
    ensures |Corrections(db, part, table).db.audit| >= |db.audit|
    ensures Corrections(db, part, table).db.audit == db.audit <==> Quiet(db, part, table)
    ensures Quiet(db, part, table) ==> Corrections(db, part, table) == Progress(db, true)
  {
    if part != [] {
      var rest, f := part[..|part| - 1], part[|part| - 1];
      assert part == rest + [f];
      QuietCorrections(log, db, rest, table);
      PassThree(log, db, rest, table);
      var mid := Corrections(db, rest, table).db;
      assert Quiet(db, part, table) <==> Quiet(db, rest, table) && (Applies(f, table) ==> QuietOn(db, f));
      if Applies(f, table) {
        assert FieldsOk(FixFields(f));
        PatchTables(log, mid, f);
        QuietCorrection(mid, f);
      }
    }
  }

  lemma QuietCorrection(db: Db, f: Record)
    requires RowKeysDistinct(db.baskets) && IsFix(f) && !Correct(db, f).1.Failed?
    ensures Correct(db, f).0.audit == db.audit <==> QuietOn(db, f)
    ensures |Correct(db, f).0.audit| > |db.audit| || Correct(db, f).0.audit == db.audit
    ensures Correct(db, f).0.audit == db.audit ==> Correct(db, f).0 == db
  {
    var hit := FindRow(db.baskets, FixTarget(f));
    if hit.Some? {
      assert db.baskets[hit.value] in db.baskets;
      forall row | row in db.baskets && RowKey(row) == FixTarget(f) ensures row == db.baskets[hit.value] {
        var i :| 0 <= i < |db.baskets| && db.baskets[i] == row;
      }
    }
  }

  /** Every field a correction set still has the value it set: no later correction of the same basket
      overwrote it. */
  ghost predicate NothingOverwritten(log: seq<Record>) {
    forall f, r | f in log && r in log && IsFix(f) && IsOpen(r) && FixTarget(f) == KeyOf(r)
                  && IsOpen(Corrected(r, log)) ::
      forall x :: x in FixFields(f) ==> Get(Corrected(r, log), x) == FixFields(f)[x]
  }

  /** Passes 1 and 2 find everything present, and pass 3 rewrites every row to what it already holds. */
  lemma ReimportTables(db0: Db, log: seq<Record>, db: Db)
    requires ImportReady(log) && HealedState(db0, log, db)
    ensures Import(db, log) == Corrections(db, log, StatusTable(Folded(log)))
    ensures Import(db, log).ok && Import(db, log).db.baskets == db.baskets && Import(db, log).db.closes == db.closes
  {
    NonFixesAre(log);
    forall r | r in NonFixes(log) && IsOpen(Corrected(r, log)) ensures HasBasket(db.baskets, r) {
      CorrectedKeepsRecord(log, r);
      var i :| 0 <= i < |log| && log[i] == r;
    }
    BasketsPresent(db, NonFixes(log), log);
    ClosesPresent(db, NonFixes(log), log);
    var table := StatusTable(Folded(log));
    PassThree(log, db, log, table);
    forall i | 0 <= i < |db.baskets| ensures Overlaid(db.baskets[i], log, table) == db.baskets[i] {
      var row := db.baskets[i];
      assert row in db.baskets && RowOk(log, row);
      OverlaidIs(log, row);
      OverlaysReplay(row.key, log, log);
    }
  }

  /** A second import leaves both tables as they are. It is a full no-op, with no UPDATE and no audit row,
      exactly when no correction was overwritten by a later one. */
  lemma ReimportExactly(db0: Db, log: seq<Record>)
    requires Ready(db0, log)
    ensures var first := Import(db0, log).db;
      var again := Import(first, log);
      && again.ok && again.db.baskets == first.baskets && again.db.closes == first.closes
      && (again.db.audit == first.audit <==> NothingOverwritten(log))
  {
    var db := Import(db0, log).db;
    ImportState(db0, log);
    ReimportTables(db0, log, db);
    QuietCorrections(log, db, log, StatusTable(Folded(log)));
    QuietIsNothingOverwritten(db0, log, db);
  }

  lemma MergeIsSame(a: Record, f: Record)
    ensures a + f == a <==> forall x :: x in f ==> x in a && a[x] == f[x]
  {
    if a + f == a {
      forall x | x in f ensures x in a && a[x] == f[x] { assert (a + f)[x] == f[x]; }
    }
  }

  lemma CorrectedHas(log: seq<Record>, f: Record, r: Record, x: Field)
    requires f in log && IsFix(f) && FixTarget(f) == KeyOf(r) && x in FixFields(f)
    ensures x in Corrected(r, log)
  {
    OverlayKeys(log, KeyOf(r));
  }

  /** Every row a correction addresses is the row of its target. */
  lemma AddressedRow(db0: Db, log: seq<Record>, db: Db, f: Record, r: Record)
    requires ImportReady(log) && HealedState(db0, log, db)
    requires r in log && IsOpen(r) && FixTarget(f) == KeyOf(r) && IsOpen(Corrected(r, log))
    ensures forall row :: row in db.baskets && RowKey(row) == FixTarget(f) ==> row.raw == Corrected(r, log)
  {
    forall row | row in db.baskets && RowKey(row) == FixTarget(f) ensures row.raw == Corrected(r, log) {
      assert RowOk(log, row);
      SameKeySameRecord(log, row.key, r);
    }
  }

  lemma HasAddressedRow(db0: Db, log: seq<Record>, db: Db, f: Record, r: Record)
    requires ImportReady(log) && HealedState(db0, log, db)
    requires r in log && IsOpen(r) && FixTarget(f) == KeyOf(r) && IsOpen(Corrected(r, log))
    ensures exists row :: row in db.baskets && RowKey(row) == FixTarget(f)
  {
    var i :| 0 <= i < |log| && log[i] == r;
    var j :| 0 <= j < |db.baskets| && db.baskets[j].key == r;
    assert db.baskets[j] in db.baskets && RowOk(log, db.baskets[j]);
  }

  /** For one correction of one open record, quiet on the table is not overwritten in the ledger. */
  lemma QuietIsNotOverwritten(db0: Db, log: seq<Record>, db: Db, f: Record, r: Record)
    requires ImportReady(log) && HealedState(db0, log, db)
    requires f in log && r in log && IsFix(f) && IsOpen(r) && FixTarget(f) == KeyOf(r) && IsOpen(Corrected(r, log))
    ensures Applies(f, StatusTable(Folded(log)))
    ensures QuietOn(db, f) <==> forall x :: x in FixFields(f) ==> Get(Corrected(r, log), x) == FixFields(f)[x]
  {
    TableTells(log, r, f);
    MergeIsSame(Corrected(r, log), FixFields(f));
    forall x | x in FixFields(f) ensures x in Corrected(r, log) { CorrectedHas(log, f, r, x); }
    AddressedRow(db0, log, db, f, r);
    HasAddressedRow(db0, log, db, f, r);
    var row :| row in db.baskets && RowKey(row) == FixTarget(f);
    assert row.raw == Corrected(r, log);
  }

  lemma AppliesToOpen(log: seq<Record>, f: Record, row: BasketRow)
    requires ImportReady(log) && f in log && Applies(f, StatusTable(Folded(log)))
    requires RowOk(log, row) && RowKey(row) == FixTarget(f)
    ensures IsOpen(Corrected(row.key, log))
  {
    TableTells(log, row.key, f);
  }

  lemma QuietIsNothingOverwritten(db0: Db, log: seq<Record>, db: Db)
    requires ImportReady(log) && HealedState(db0, log, db)
    ensures Quiet(db, log, StatusTable(Folded(log))) <==> NothingOverwritten(log)
  {
    var table := StatusTable(Folded(log));
    if NothingOverwritten(log) {
      forall f | f in log && Applies(f, table) ensures QuietOn(db, f) {
        if row :| row in db.baskets && RowKey(row) == FixTarget(f) {
          assert RowOk(log, row);
          AppliesToOpen(log, f, row);
          QuietIsNotOverwritten(db0, log, db, f, row.key);
        }
      }
    }
    if Quiet(db, log, table) {
      forall f, r | f in log && r in log && IsFix(f) && IsOpen(r) && FixTarget(f) == KeyOf(r)
                    && IsOpen(Corrected(r, log))
        ensures forall x :: x in FixFields(f) ==> Get(Corrected(r, log), x) == FixFields(f)[x]
      {
        QuietIsNotOverwritten(db0, log, db, f, r);
      }
    }
  }

  // ---------- mirroring again ----------

  /** after is before with the corrections of part merged into every row once more. */
  ghost predicate Again(before: seq<BasketRow>, after: seq<BasketRow>, part: seq<Record>) {
    && |after| == |before|
    && forall i :: 0 <= i < |before| ==>
         && Storable(before[i].raw + Overlay(part, RowKey(before[i])))
         && after[i] == Merged(before[i], Overlay(part, RowKey(before[i])))
  }

  lemma AgainNothing(log: seq<Record>, rows: seq<BasketRow>)
    requires forall row :: row in rows ==> RowOk(log, row)
    ensures Again(rows, rows, [])
  {
    forall i | 0 <= i < |rows|
      ensures rows[i].raw + map[] == rows[i].raw && RowOk(log, rows[i])
    {
      assert rows[i] in rows;
    }
  }

  lemma AgainFix(before: seq<BasketRow>, mid: seq<BasketRow>, part: seq<Record>)
    requires part != [] && IsFix(part[|part| - 1]) && FieldsOk(FixFields(part[|part| - 1]))
    requires Again(before, mid, part[..|part| - 1])
    ensures Again(before, PatchAll(mid, part[|part| - 1]), part)
  {
    PatchAllAt(mid, part[|part| - 1]);
    forall i | 0 <= i < |before|
      ensures Storable(before[i].raw + Overlay(part, RowKey(before[i])))
      ensures PatchAll(mid, part[|part| - 1])[i] == Merged(before[i], Overlay(part, RowKey(before[i])))
    {
      MergedStep(before[i], part);
    }
  }

  lemma AgainOther(before: seq<BasketRow>, mid: seq<BasketRow>, part: seq<Record>)
    requires part != [] && !IsFix(part[|part| - 1])
    requires Again(before, mid, part[..|part| - 1])
    ensures Again(before, mid, part)
  {
    forall i | 0 <= i < |before|
      ensures Overlay(part, RowKey(before[i])) == Overlay(part[..|part| - 1], RowKey(before[i]))
    {}
  }

  lemma AgainKeys(before: seq<BasketRow>, after: seq<BasketRow>, part: seq<Record>)
    requires Again(before, after, part)
    ensures forall i :: 0 <= i < |before| ==> after[i].key == before[i].key
  {}

  lemma {:induction false} MirrorAgain(log: seq<Record>, db: Db, n: nat)
    requires WellFormed(log) && n <= |log| && Tables(log, db)
    requires forall r :: r in log && IsOpen(r) && Storable(r) ==> HasBasket(db.baskets, r)
    requires forall r :: r in log && IsClose(r) ==> HasClose(db.closes, r)
    ensures var db' := MirrorOnto(db, log[..n]);
      Tables(log, db') && db'.closes == db.closes && Again(db.baskets, db'.baskets, log[..n])
    decreases n
  {
    if n == 0 {
      AgainNothing(log, db.baskets);
    } else {
      var part, f := log[..n], log[n - 1];
      assert part[..n - 1] == log[..n - 1] && part[n - 1] == f;
      MirrorAgain(log, db, n - 1);
      var mid := MirrorOnto(db, log[..n - 1]);
      if IsFix(f) {
        assert FieldsOk(FixFields(f));
        MirrorFix(mid, f);
        PatchTables(log, mid, f);
        AgainFix(db.baskets, mid.baskets, part);
      } else {
        AgainKeys(db.baskets, mid.baskets, log[..n - 1]);
        MirrorPresent(log, db, mid, f);
        AgainOther(db.baskets, mid.baskets, part);
      }
    }
  }

  lemma MirrorFix(db: Db, f: Record)
    requires IsFix(f)
    ensures Mirror(db, f) == Correct(db, f).0
  {}

  lemma {:induction false} MergedStep(row: BasketRow, part: seq<Record>)
    requires part != [] && (IsFix(part[|part| - 1]) ==> FieldsOk(FixFields(part[|part| - 1])))
    requires Storable(row.raw + Overlay(part[..|part| - 1], RowKey(row)))
    ensures Storable(row.raw + Overlay(part, RowKey(row)))
    ensures var f, before := part[|part| - 1], Merged(row, Overlay(part[..|part| - 1], RowKey(row)));
      Merged(row, Overlay(part, RowKey(row))) == if IsFix(f) then Patch(before, f) else before
  {
    var f := part[|part| - 1];
    OverlayStorable(row, part);
    if IsFix(f) && FixTarget(f) == RowKey(row) {
      PatchMerges(row, Overlay(part[..|part| - 1], RowKey(row)), f);
    }
  }

  /** Mirroring an open record or a close a second time does nothing. */
  lemma MirrorPresent(log: seq<Record>, db: Db, mid: Db, r: Record)
    requires Tables(log, db) && Tables(log, mid) && |mid.baskets| == |db.baskets| && mid.closes == db.closes
    requires forall i :: 0 <= i < |db.baskets| ==> mid.baskets[i].key == db.baskets[i].key
    requires r in log && !IsFix(r)
    requires IsOpen(r) && Storable(r) ==> HasBasket(db.baskets, r)
    requires IsClose(r) ==> HasClose(db.closes, r)
    ensures Mirror(mid, r) == mid
  {
    if IsOpen(r) && Storable(r) {
      var i :| 0 <= i < |db.baskets| && db.baskets[i].key == r;
      assert mid.baskets[i].key == r;
    }
    assert Get(r, Status) == CORRECTION ==> FindRow(mid.baskets, FixTarget(r)).None?;
  }

  /** A fully mirrored log: every storable open record has its row, holding the corrected record. */
  lemma FullyMirrored(log: seq<Record>)
    requires WellFormed(log)
    ensures var db := MirrorOnto(EMPTY, log);
      && Tables(log, db)
      && (forall r :: r in log && IsOpen(r) && Storable(r) ==> HasBasket(db.baskets, r))
      && (forall r :: r in log && IsClose(r) ==> HasClose(db.closes, r))
      && (forall row :: row in db.baskets ==> Storable(row.key) && row.raw == Corrected(row.key, log))
  {
    var db := MirrorOnto(EMPTY, log);
    MirroredTables(log);
    MirrorState(log);
    RowsAreStored(log, log);
    forall r | r in log && IsOpen(r) && Storable(r) ensures HasBasket(db.baskets, r) {
      CorrectedKeepsRecord(log, r);
      assert RowOf(r, log) in db.baskets;
      var i :| 0 <= i < |db.baskets| && db.baskets[i] == RowOf(r, log);
      assert db.baskets[i].key == r;
    }
  }

  /** Laying the corrections of part over the corrected r once more changes nothing. */
  predicate Absorbs(r: Record, part: seq<Record>, log: seq<Record>) {
    Corrected(r, log) + Overlay(part, KeyOf(r)) == Corrected(r, log)
  }

  lemma MergedSame(row: BasketRow, o: Record)
    requires Storable(row.raw + o) && Storable(row.raw) && row.cols == BasketCols(row.raw)
    ensures Merged(row, o) == row <==> row.raw + o == row.raw
  {}

  lemma AllRowsAbsorb(log: seq<Record>, db: Db, again: seq<BasketRow>, part: seq<Record>)
    requires Tables(log, db) && |again| == |db.baskets|
    requires forall row :: row in db.baskets ==> Storable(row.key) && row.raw == Corrected(row.key, log)
    requires forall r :: r in log && IsOpen(r) && Storable(r) ==> HasBasket(db.baskets, r)
    requires forall i :: 0 <= i < |db.baskets| ==>
      again[i] == Merged(db.baskets[i], Overlay(part, RowKey(db.baskets[i])))
    requires forall i :: 0 <= i < |db.baskets| ==> Storable(db.baskets[i].raw + Overlay(part, RowKey(db.baskets[i])))
    ensures again == db.baskets <==> forall r :: r in log && IsOpen(r) && Storable(r) ==> Absorbs(r, part, log)
  {
    forall i | 0 <= i < |db.baskets| ensures again[i] == db.baskets[i] <==> Absorbs(db.baskets[i].key, part, log) {
      assert db.baskets[i] in db.baskets && RowOk(log, db.baskets[i]);
      MergedSame(db.baskets[i], Overlay(part, RowKey(db.baskets[i])));
    }
    if again == db.baskets {
      forall r | r in log && IsOpen(r) && Storable(r) ensures Absorbs(r, part, log) {
        var i :| 0 <= i < |db.baskets| && db.baskets[i].key == r;
        assert again[i] == db.baskets[i];
      }
    }
    if forall r :: r in log && IsOpen(r) && Storable(r) ==> Absorbs(r, part, log) {
      forall i | 0 <= i < |db.baskets| ensures again[i] == db.baskets[i] {
        assert db.baskets[i] in db.baskets && RowOk(log, db.baskets[i]);
      }
    }
  }

  /** Mirroring the first n records of an already mirrored log again never touches the close table, and
      leaves the basket table alone exactly when laying the corrections among them over each corrected
      record once more changes nothing. For the whole log that always holds. */
  lemma {:induction false} RemirrorExactly(log: seq<Record>, n: nat)
    requires WellFormed(log) && n <= |log|
    ensures var db := MirrorOnto(EMPTY, log);
      var again := MirrorOnto(db, log[..n]);
      && again.closes == db.closes
      && (again.baskets == db.baskets <==>
          forall r :: r in log && IsOpen(r) && Storable(r) ==> Absorbs(r, log[..n], log))
    ensures MirrorOnto(MirrorOnto(EMPTY, log), log).baskets == MirrorOnto(EMPTY, log).baskets
  {
    var db := MirrorOnto(EMPTY, log);
    FullyMirrored(log);
    MirrorAgain(log, db, n);
    AllRowsAbsorb(log, db, MirrorOnto(db, log[..n]).baskets, log[..n]);
    MirrorAgain(log, db, |log|);
    assert log[..|log|] == log;
    AllRowsAbsorb(log, db, MirrorOnto(db, log).baskets, log);
    forall r | r in log && IsOpen(r) && Storable(r) ensures Absorbs(r, log, log) { OverlaysReplay(r, log, log); }
  }
}
