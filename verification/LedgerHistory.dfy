/** What becomes of the mirror over whole histories: records appended to the ledger, live writes that reach the
    database or are lost, and nightly imports of the ledger as it then is (src/arbbot/exec/ledgerdb.py,
    scripts/import_ledger_to_sqlite.py). */
module LedgerHistory {
  import opened Core
  import opened Ledger
  import opened LedgerDb
  import opened LedgerMirror
  import opened LedgerHeal
  import opened LedgerHealing

  // ---------- what every write keeps ----------

  lemma {:induction false} OverlayGrows(log: seq<Record>, r: Record, k: Key)
    ensures Overlay(log + [r], k) == Overlay(log, k) + if IsFix(r) && FixTarget(r) == k then FixFields(r) else map[]
  {
    assert (log + [r])[..|log|] == log;
  }

  /** A database filled from a ledger is one filled from the longer ledger. */
  lemma KeptGrows(log: seq<Record>, r: Record, db: Db)
    requires Kept(log, db)
    ensures Kept(log + [r], db)
  {
    var more := log + [r];
    forall row | row in db.baskets ensures RowOk(more, row) && Based(more, row) {
      assert RowOk(log, row) && Based(log, row);
      var (o, f) :=
        (Overlay(log, RowKey(row)), if IsFix(r) && FixTarget(r) == RowKey(row) then FixFields(r) else map[]);
      OverlayGrows(log, r, RowKey(row));
      MergeAssociates(row.raw, o, f);
      MergeAssociates(row.key, o, f);
    }
    forall c | c in db.closes ensures CloseRowOk(more, c) { assert CloseRowOk(log, c); }
  }

  lemma Overridden(a: Record, f: Record, o: Record)
    requires f.Keys <= o.Keys
    ensures (a + f) + o == a + o
  {}

  lemma BasedPatch(log: seq<Record>, row: BasketRow, f: Record)
    requires Based(log, row) && f in log && IsFix(f)
    ensures Based(log, Patch(row, f))
  {
    if RowKey(row) == FixTarget(f) {
      OverlayKeys(log, RowKey(row));
      Overridden(row.raw, FixFields(f), Overlay(log, RowKey(row)));
    }
  }

  lemma KeptCorrect(log: seq<Record>, db: Db, f: Record)
    requires Kept(log, db) && f in log && IsFix(f) && FieldsOk(FixFields(f))
    ensures Kept(log, Correct(db, f).0) && Correct(db, f).0.closes == db.closes
  {
    PatchTables(log, db, f);
    PatchAllAt(db.baskets, f);
    forall row | row in PatchAll(db.baskets, f) ensures Based(log, row) {
      var i :| 0 <= i < |db.baskets| && PatchAll(db.baskets, f)[i] == row;
      assert db.baskets[i] in db.baskets;
      BasedPatch(log, db.baskets[i], f);
    }
  }

  /** A basket goes in under its raw record, with its own content or with the corrected one. */
  lemma KeptInsert(log: seq<Record>, db: Db, r: Record, raw: Record)
    requires Kept(log, db) && OpensDistinct(log) && r in log && IsOpen(r)
    requires KeyOf(raw) == KeyOf(r) && raw + Overlay(log, KeyOf(r)) == Corrected(r, log)
    ensures Kept(log, InsertBasket(db, raw, r).0) && InsertBasket(db, raw, r).0.closes == db.closes
  {
    var next := InsertBasket(db, raw, r).0;
    if next != db {
      var row := next.baskets[|db.baskets|];
      assert next.baskets == db.baskets + [row];
      forall x | x in db.baskets ensures RowKey(x) != KeyOf(r) {
        assert RowOk(log, x);
        if KeyOf(x.key) == KeyOf(r) { SameKeySameRecord(log, x.key, r); }
      }
      forall c | c in db.closes ensures Attached(next.baskets, c) { assert Attached(db.baskets, c); }
      forall x | x in next.baskets ensures RowOk(log, x) && Based(log, x) { assert x != row ==> x in db.baskets; }
    }
  }

  lemma KeptClose(log: seq<Record>, db: Db, r: Record)
    requires Kept(log, db) && r in log && IsClose(r) && CloseOk(r)
    ensures Kept(log, InsertClose(db, r, r).0)
  {
    if !HasClose(db.closes, r) { InsertNewClose(log, db, r); }
  }

  // ---------- what the passes keep, finished or not ----------

  lemma {:induction false} KeptBaskets(log: seq<Record>, db: Db, raws: seq<Record>)
    requires Kept(log, db) && WellFormed(log) && forall r :: r in raws ==> r in log && Get(r, Status) != CORRECTION
    ensures Kept(log, Baskets(db, raws, log).db)
  {
    if raws != [] {
      var rest, r := raws[..|raws| - 1], raws[|raws| - 1];
      assert raws == rest + [r];
      KeptBaskets(log, db, rest);
      CorrectedKeepsRecord(log, r);
      if IsOpen(Corrected(r, log)) {
        OverlaysReplay(r, log, log);
        KeptInsert(log, Baskets(db, rest, log).db, r, Corrected(r, log));
      }
    }
  }

  lemma {:induction false} KeptCloses(log: seq<Record>, db: Db, raws: seq<Record>)
    requires Kept(log, db) && WellFormed(log) && forall r :: r in raws ==> r in log && Get(r, Status) != CORRECTION
    ensures Kept(log, Closes(db, raws, log).db)
  {
    if raws != [] {
      var rest, r := raws[..|raws| - 1], raws[|raws| - 1];
      assert raws == rest + [r];
      KeptCloses(log, db, rest);
      CorrectedKeepsRecord(log, r);
      if IsClose(r) {
        var j :| 0 <= j < |log| && log[j] == r;
        KeptClose(log, Closes(db, rest, log).db, r);
      }
    }
  }

  lemma {:induction false} KeptCorrections(log: seq<Record>, db: Db, part: seq<Record>, table: map<Key, Value>)
    requires Kept(log, db) && FixesOk(log) && forall r :: r in part ==> r in log
    ensures Kept(log, Corrections(db, part, table).db)
  {
    if part != [] {
      var rest, f := part[..|part| - 1], part[|part| - 1];
      assert part == rest + [f];
      KeptCorrections(log, db, rest, table);
      if IsFix(f) {
        assert f in part && f in log;
        KeptCorrect(log, Corrections(db, rest, table).db, f);
      }
    }
  }

  /** An import, even one that stops at a failure, leaves a database filled from the ledger. */
  lemma KeptImport(log: seq<Record>, db: Db)
    requires Kept(log, db) && WellFormed(log)
    ensures Kept(log, Import(db, log).db)
  {
    NonFixesAre(log);
    KeptBaskets(log, db, NonFixes(log));
    var one := Baskets(db, NonFixes(log), log);
    KeptCloses(log, one.db, NonFixes(log));
    var two := Closes(one.db, NonFixes(log), log);
    KeptCorrections(log, two.db, log, StatusTable(Folded(log)));
  }

  /** So does a live write of the record just appended. */
  lemma KeptMirror(log: seq<Record>, r: Record, db: Db)
    requires Kept(log, db) && WellFormed(log + [r])
    ensures Kept(log + [r], Mirror(db, r))
  {
    var more := log + [r];
    assert more[|log|] == r;
    KeptGrows(log, r, db);
    if IsOpen(r) {
      KeptInsert(more, db, r, r);
    } else if IsClose(r) {
      KeptClose(more, db, r);
    } else if IsFix(r) {
      KeptCorrect(more, db, r);
    } else {
      assert Get(r, Status) == CORRECTION ==> FindRow(db.baskets, FixTarget(r)).None?;
    }
  }

  // ---------- histories ----------

  /** A record is appended, and its live write reaches the database or is lost; or the import runs. */
  datatype Event = Appended(r: Record, mirrored: bool) | Imported

  function LogOf(es: seq<Event>): seq<Record> {
    if es == [] then []
    else LogOf(es[..|es| - 1]) + if es[|es| - 1].Appended? then [es[|es| - 1].r] else []
  }

  /** What the event makes of the database, given the ledger before it. */
  function Written(db: Db, log: seq<Record>, e: Event): Db {
    match e
    case Appended(r, mirrored) => if mirrored then Mirror(db, r) else db
    case Imported => Import(db, log).db
  }

  function DbOf(es: seq<Event>): Db {
    if es == [] then EMPTY else Written(DbOf(es[..|es| - 1]), LogOf(es[..|es| - 1]), es[|es| - 1])
  }

  lemma HistoryAppend(es: seq<Event>, e: Event)
    ensures LogOf(es + [e]) == LogOf(es) + if e.Appended? then [e.r] else []
    ensures DbOf(es + [e]) == Written(DbOf(es), LogOf(es), e)
  {
    assert (es + [e])[..|es|] == es;
  }

  /** Every history of a well-formed ledger leaves a database filled from it. */
  lemma {:induction false} HistoryKept(es: seq<Event>)
    requires WellFormed(LogOf(es))
    ensures Kept(LogOf(es), DbOf(es))
  {
    if es != [] {
      var init, e := es[..|es| - 1], es[|es| - 1];
      match e {
        case Appended(r, mirrored) =>
          WellFormedPrefix(LogOf(es), |LogOf(init)|);
          assert LogOf(es)[..|LogOf(init)|] == LogOf(init);
          HistoryKept(init);
          if mirrored { KeptMirror(LogOf(init), r, DbOf(init)); } else { KeptGrows(LogOf(init), r, DbOf(init)); }
        case Imported =>
          assert LogOf(es) == LogOf(init);
          HistoryKept(init);
          KeptImport(LogOf(init), DbOf(init));
      }
    }
  }

  /** After any history, whatever live writes were lost and whatever imports ran or failed in between, the next
      import of a ledger it can read gives the reference view if and only if every open record heals. */
  lemma HistoryHealsExactly(es: seq<Event>)
    requires ImportReady(LogOf(es))
    ensures var (log, p) := (LogOf(es), Import(DbOf(es), LogOf(es)));
      && p.ok
      && (AsSet(View(p.db.baskets, p.db.closes)) == AsSet(OpenBaskets(log))
          <==> forall r :: r in log && IsOpen(r) ==> Heals(r, DbOf(es), log))
  {
    HistoryKept(es);
    HealExactly(DbOf(es), LogOf(es));
  }

  // ---------- losing writes of one ledger ----------

  /** sub is what is left of log when some records are dropped; at gives the surviving positions. */
  ghost predicate Subsequence(sub: seq<Record>, log: seq<Record>, at: seq<nat>) {
    && |at| == |sub|
    && (forall i :: 0 <= i < |sub| ==> at[i] < |log| && sub[i] == log[at[i]])
    && (forall i, j :: 0 <= i < j < |sub| ==> at[i] < at[j])
  }

  ghost predicate Lossy(sub: seq<Record>, log: seq<Record>, at: seq<nat>) {
    ImportReady(log) && Subsequence(sub, log, at)
  }

  lemma SubsequenceWellFormed(sub: seq<Record>, log: seq<Record>, at: seq<nat>)
    requires WellFormed(log) && Subsequence(sub, log, at)
    ensures WellFormed(sub)
    ensures forall r :: r in sub ==> r in log
  {
    assert OpensDistinct(sub);
    assert FixesFollow(sub) by {
      forall i, j | 0 <= i < |sub| && 0 <= j < |sub| && IsFix(sub[j]) && Get(sub[i], Status) != CORRECTION
                    && KeyOf(sub[i]) == FixTarget(sub[j])
        ensures i < j && IsOpen(sub[i])
      {
        assert at[i] < at[j];
      }
    }
    assert ClosesFollow(sub) by {
      forall i, j | 0 <= i < |sub| && 0 <= j < |sub| && IsOpen(sub[i]) && IsUnwind(sub[j])
                    && KeyOf(sub[i]) == UnwindTarget(sub[j])
        ensures i < j
      {
        assert at[i] < at[j];
      }
    }
  }

  /** What the live writes that were not lost leave. */
  lemma LossyKept(sub: seq<Record>, log: seq<Record>, at: seq<nat>)
    requires Lossy(sub, log, at)
    ensures Ready(MirrorOnto(EMPTY, sub), log)
    ensures ClosesMirror(sub, MirrorOnto(EMPTY, sub))
    ensures forall row :: row in MirrorOnto(EMPTY, sub).baskets ==> row.key in sub && row.raw == Corrected(row.key, sub)
    ensures forall r :: r in sub && IsOpen(r) && Storable(r) ==> HasBasket(MirrorOnto(EMPTY, sub).baskets, r)
  {
    var db := MirrorOnto(EMPTY, sub);
    SubsequenceWellFormed(sub, log, at);
    FullyMirrored(sub);
    MirrorState(sub);
    RowsAreStored(sub, sub);
    forall c | c in db.closes ensures CloseRowOk(log, c) { assert CloseRowOk(sub, c); }
    forall row | row in db.baskets ensures RowOk(log, row) && Based(log, row) {
      assert RowOk(sub, row);
      OverlaysReplay(row.key, sub, log);
    }
  }

  /** The unwinds of r that are not orphans: those that were lost themselves, or found its basket. */
  function NotOrphaned(r: Record, sub: seq<Record>, log: seq<Record>): set<Record> {
    set u | u in log && IsUnwind(u) && UnwindTarget(u) == KeyOf(r) && (u !in sub || (r in sub && Storable(r)))
  }

  lemma OrphanHasNoRow(r: Record, sub: seq<Record>, log: seq<Record>, db: Db, u: Record)
    requires Tables(log, db) && ClosesMirror(sub, db) && IsUnwind(u) && UnwindTarget(u) == KeyOf(r)
    requires Orphaned(db.closes, u)
    ensures u in sub && !HasBasket(db.baskets, r)
  {
    var i :| 0 <= i < |db.closes| && db.closes[i].key == u && db.closes[i].basket.None?;
    assert db.closes[i] in db.closes && CloseRowOk(sub, db.closes[i]);
    assert Unmatched(db.baskets, UnwindTarget(u));
    if HasBasket(db.baskets, r) { RowOfRecord(log, db, r); }
  }

  lemma AttachedHasRow(r: Record, sub: seq<Record>, log: seq<Record>, db: Db, u: Record)
    requires Tables(log, db) && ClosesMirror(sub, db) && OpensDistinct(log) && r in log && IsOpen(r)
    requires u in sub && IsUnwind(u) && UnwindTarget(u) == KeyOf(r) && !Orphaned(db.closes, u)
    ensures HasBasket(db.baskets, r)
  {
    assert HasClose(db.closes, u);
    var i :| 0 <= i < |db.closes| && db.closes[i].key == u;
    assert db.closes[i] in db.closes && Attached(db.baskets, db.closes[i]);
    var row := db.baskets[db.closes[i].basket.value];
    assert row in db.baskets && RowOk(log, row);
    SameKeySameRecord(log, row.key, r);
  }

  lemma LossyAttached(r: Record, sub: seq<Record>, log: seq<Record>, at: seq<nat>)
    requires Lossy(sub, log, at) && r in log && IsOpen(r)
    ensures StillAttached(r, MirrorOnto(EMPTY, sub), log) == NotOrphaned(r, sub, log)
  {
    var db := MirrorOnto(EMPTY, sub);
    LossyKept(sub, log, at);
    MirroredIff(r, sub, log, at);
    forall u | u in log && IsUnwind(u) && UnwindTarget(u) == KeyOf(r)
      ensures Orphaned(db.closes, u) <==> u in sub && !HasBasket(db.baskets, r)
    {
      if Orphaned(db.closes, u) {
        OrphanHasNoRow(r, sub, log, db, u);
      } else if u in sub {
        AttachedHasRow(r, sub, log, db, u);
      }
    }
  }

  /** The live mirror has a row for exactly the storable open records whose write was not lost. */
  lemma MirroredIff(r: Record, sub: seq<Record>, log: seq<Record>, at: seq<nat>)
    requires Lossy(sub, log, at) && IsOpen(r)
    ensures HasBasket(MirrorOnto(EMPTY, sub).baskets, r) <==> r in sub && Storable(r)
  {
    var db := MirrorOnto(EMPTY, sub);
    LossyKept(sub, log, at);
    SubsequenceWellFormed(sub, log, at);
    FullyMirrored(sub);
    if HasBasket(db.baskets, r) {
      var i :| 0 <= i < |db.baskets| && db.baskets[i].key == r;
      assert db.baskets[i] in db.baskets;
    }
  }

  lemma RowOfRecord(log: seq<Record>, db: Db, r: Record)
    requires Tables(log, db) && HasBasket(db.baskets, r)
    ensures exists row :: row in db.baskets && RowKey(row) == KeyOf(r)
  {
    var i :| 0 <= i < |db.baskets| && db.baskets[i].key == r;
    assert db.baskets[i] in db.baskets && RowOk(log, db.baskets[i]);
  }

  /** What the row of a mirrored record holds. */
  lemma MirroredRaw(r: Record, sub: seq<Record>, log: seq<Record>, at: seq<nat>)
    requires Lossy(sub, log, at) && HasBasket(MirrorOnto(EMPTY, sub).baskets, r)
    ensures RawIn(MirrorOnto(EMPTY, sub).baskets, r) == Corrected(r, sub)
  {
    var db := MirrorOnto(EMPTY, sub);
    LossyKept(sub, log, at);
    RecordsDistinct(log, db);
    var i :| 0 <= i < |db.baskets| && db.baskets[i].key == r;
    assert db.baskets[i] in db.baskets;
    RawInIs(db.baskets, db.baskets[i]);
  }

  /** When the import repairs a record of which the live mirror lost some writes. Either it is open in the
      corrected ledger, and no unwind of it was mirrored without it (or the others close it anyway); or it is
      not, and the live mirror does not still hold it open. */
  predicate HealsLoss(r: Record, sub: seq<Record>, log: seq<Record>) {
    var attached := SumIn(log, NotOrphaned(r, sub, log));
    if IsOpen(Corrected(r, log)) then attached == Unwound(log, KeyOf(r)) || QtyOf(Corrected(r, log)) <= attached
    else !(r in sub && Storable(r) && IsOpen(Corrected(r, sub))) || QtyOf(Corrected(r, sub)) <= attached
  }

  lemma HealsLossIff(r: Record, sub: seq<Record>, log: seq<Record>, at: seq<nat>)
    requires Lossy(sub, log, at) && r in log && IsOpen(r)
    ensures HealsLoss(r, sub, log) <==> Heals(r, MirrorOnto(EMPTY, sub), log)
  {
    LossyAttached(r, sub, log, at);
    MirroredIff(r, sub, log, at);
    if HasBasket(MirrorOnto(EMPTY, sub).baskets, r) { MirroredRaw(r, sub, log, at); }
  }

  /** In terms of the writes: when the live mirror lost any of them and no import has run, the first one gives
      the reference view if and only if every open record heals. */
  lemma LossHealsExactly(sub: seq<Record>, log: seq<Record>, at: seq<nat>)
    requires Lossy(sub, log, at)
    ensures var p := Import(MirrorOnto(EMPTY, sub), log);
      && p.ok
      && (AsSet(View(p.db.baskets, p.db.closes)) == AsSet(OpenBaskets(log))
          <==> forall r :: r in log && IsOpen(r) ==> HealsLoss(r, sub, log))
  {
    LossyKept(sub, log, at);
    HealExactly(MirrorOnto(EMPTY, sub), log);
    forall r | r in log && IsOpen(r) ensures HealsLoss(r, sub, log) <==> Heals(r, MirrorOnto(EMPTY, sub), log) {
      HealsLossIff(r, sub, log, at);
    }
  }

  lemma NoneOrphaned(r: Record, sub: seq<Record>, log: seq<Record>)
    requires forall u :: u in sub && IsUnwind(u) && UnwindTarget(u) == KeyOf(r) ==> r in sub && Storable(r)
    ensures SumIn(log, NotOrphaned(r, sub, log)) == Unwound(log, KeyOf(r))
  {
    UnwoundIsLedgerSum(log, log, KeyOf(r));
    assert NotOrphaned(r, sub, log) == Targeting(log, KeyOf(r));
  }

  /** In particular the import heals when no unwind of a basket that is open after corrections was mirrored
      without it, and no correction that takes a mirrored basket away from open was lost. */
  lemma HealSufficient(sub: seq<Record>, log: seq<Record>, at: seq<nat>)
    requires Lossy(sub, log, at)
    requires forall r :: r in log && IsOpen(r) && IsOpen(Corrected(r, log)) ==>
      forall u :: u in sub && IsUnwind(u) && UnwindTarget(u) == KeyOf(r) ==> r in sub && Storable(r)
    requires forall r :: r in sub && IsOpen(r) && IsOpen(Corrected(r, sub)) ==> IsOpen(Corrected(r, log))
    ensures var p := Import(MirrorOnto(EMPTY, sub), log);
      p.ok && AsSet(View(p.db.baskets, p.db.closes)) == AsSet(OpenBaskets(log))
  {
    LossHealsExactly(sub, log, at);
    forall r | r in log && IsOpen(r) ensures HealsLoss(r, sub, log) {
      if IsOpen(Corrected(r, log)) { NoneOrphaned(r, sub, log); }
    }
  }
}
