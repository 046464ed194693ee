/** Ledgers that show where the promise "the nightly backfill heals" (src/arbbot/exec/ledgerdb.py) ends. */
module LedgerGaps {
  import opened Core
  import opened Ledger
  import opened LedgerDb
  import opened LedgerMirror
  import opened LedgerHeal
  import opened LedgerHealing
  import opened LedgerHistory

  const VOIDED := Str("voided")

  const BASKET: Record := map[Status := OPEN, Rel := Str("r"), Ts := Num(1.0), Qty := Num(10.0)]
  const VOIDING: Record :=
    map[Status := CORRECTION, Rel := Str("r"), CorrectsTs := Num(1.0), Changes := Obj(map[Status := VOIDED])]
  const CLOSING: Record :=
    map[Status := UNWOUND, Rel := Str("r"), Ts := Num(2.0), ClosesTs := Num(1.0), Qty := Num(10.0)]

  function Fix(ts: real, cost: real): Record {
    map[Status := CORRECTION, Rel := Str("r"), Ts := Num(ts), CorrectsTs := Num(1.0),
        Changes := Obj(map[Cost := Num(cost)])]
  }

  lemma Sizes()
    ensures IntQty(Num(10.0)) == Some(10)
    ensures Storable(BASKET) && CloseStorable(CLOSING)
  {
    assert Round(10.0) == 10;
  }

  lemma TwoRecords(a: Record, b: Record)
    ensures [a, b][..1] == [a] && [a][..0] == []
    ensures NonFixes([a, b]) ==
      (if Get(a, Status) == CORRECTION then [] else [a]) + (if Get(b, Status) == CORRECTION then [] else [b])
    ensures forall k :: Overlay([a], k) == if IsFix(a) && FixTarget(a) == k then FixFields(a) else map[]
    ensures forall k ::
      Overlay([a, b], k) == Overlay([a], k) + if IsFix(b) && FixTarget(b) == k then FixFields(b) else map[]
  {
    assert [a, b][..1] == [a] && [a][..0] == [];
    assert NonFixes([]) == [] && NonFixes([a]) == if Get(a, Status) == CORRECTION then [] else [] + [a];
    assert NonFixes([a, b]) == if Get(b, Status) == CORRECTION then NonFixes([a]) else NonFixes([a]) + [b];
    forall k ensures Overlay([a], k) == if IsFix(a) && FixTarget(a) == k then FixFields(a) else map[] {
      assert Overlay([], k) == map[];
    }
  }

  lemma {:induction false} NothingSums(log: seq<Record>)
    ensures SumIn(log, {}) == 0.0
  {
    if log != [] { NothingSums(log[..|log| - 1]); }
  }

  /** The basket, then corrections of it. */
  ghost predicate BasketThenFixes(log: seq<Record>) {
    && log != [] && log[0] == BASKET
    && forall j :: 0 < j < |log| ==> IsFix(log[j]) && FieldsOk(FixFields(log[j]))
  }

  lemma BasketThenFixesWellFormed(log: seq<Record>)
    requires BasketThenFixes(log)
    ensures WellFormed(log) && OpenStorable(log)
  {
    Sizes();
    assert !IsFix(BASKET) && !IsClose(BASKET) && IsOpen(BASKET);
    assert forall j :: 0 < j < |log| ==> !IsOpen(log[j]) && !IsClose(log[j]) && Get(log[j], Status) == CORRECTION;
    assert FixesFollow(log) by {
      forall i, j | 0 <= i < |log| && 0 <= j < |log| && IsFix(log[j]) && Get(log[i], Status) != CORRECTION
                    && KeyOf(log[i]) == FixTarget(log[j])
        ensures i < j && IsOpen(log[i])
      {
        assert i == 0 && j > 0;
      }
    }
    forall r | r in log && Get(r, Status) != CORRECTION ensures Storable(Corrected(r, log)) {
      CorrectedKeepsRecord(log, r);
    }
  }

  lemma VoidLogReady()
    ensures Lossy([BASKET], [BASKET, VOIDING], [0])
  {
    var log := [BASKET, VOIDING];
    BasketThenFixesWellFormed(log);
    TwoRecords(BASKET, VOIDING);
    assert IsFix(log[1]);
    AlignedRecords(log, log);
  }

  lemma LossNotHealed(sub: seq<Record>, log: seq<Record>, at: seq<nat>, r: Record)
    requires Lossy(sub, log, at) && r in log && IsOpen(r) && !HealsLoss(r, sub, log)
    ensures var p := Import(MirrorOnto(EMPTY, sub), log);
      p.ok && AsSet(View(p.db.baskets, p.db.closes)) != AsSet(OpenBaskets(log))
  {
    LossHealsExactly(sub, log, at);
  }

  lemma LostVoidDoesNotHeal()
    ensures BASKET in [BASKET, VOIDING] && IsOpen(BASKET) && !HealsLoss(BASKET, [BASKET], [BASKET, VOIDING])
  {
    var log, sub := [BASKET, VOIDING], [BASKET];
    Sizes();
    TwoRecords(BASKET, VOIDING);
    assert Get(Corrected(BASKET, log), Status) == VOIDED;
    assert Corrected(BASKET, sub) == BASKET;
    assert NotOrphaned(BASKET, sub, log) == {};
    NothingSums(log);
  }

  /** A voiding correction that the live mirror lost is not healed: the import skips it, because its target
      is no longer open in the corrected ledger, and the mirror goes on showing the basket. */
  lemma LostVoidStays() returns (log: seq<Record>, sub: seq<Record>)
    ensures Lossy(sub, log, [0])
    ensures var p := Import(MirrorOnto(EMPTY, sub), log);
      p.ok && AsSet(View(p.db.baskets, p.db.closes)) != AsSet(OpenBaskets(log))
  {
    log, sub := [BASKET, VOIDING], [BASKET];
    VoidLogReady();
    LostVoidDoesNotHeal();
    LossNotHealed(sub, log, [0], BASKET);
  }

  lemma EmptyIsKept(log: seq<Record>)
    ensures Kept(log, EMPTY)
  {}

  lemma RowHolds(log: seq<Record>, db: Db, r: Record) returns (row: BasketRow)
    requires Tables(log, db) && HasBasket(db.baskets, r)
    ensures row in db.baskets && row.key == r && RawIn(db.baskets, r) == row.raw
  {
    var i :| 0 <= i < |db.baskets| && db.baskets[i].key == r;
    row := db.baskets[i];
    RecordsDistinct(log, db);
    RawInIs(db.baskets, row);
  }

  /** What an import into an empty database leaves of an open record. */
  lemma ImportedRow(log: seq<Record>, r: Record)
    requires ImportReady(log) && r in log && IsOpen(r) && IsOpen(Corrected(r, log))
    ensures var db := Import(EMPTY, log).db;
      HasBasket(db.baskets, r) && RawIn(db.baskets, r) == Corrected(r, log)
  {
    var db := Import(EMPTY, log).db;
    EmptyIsKept(log);
    ImportState(EMPTY, log);
    assert HasRow(r, EMPTY, log);
    var row := RowHolds(log, db, r);
  }

  lemma AlignedAlone(a: Record)
    requires Get(a, Status) != CORRECTION
    ensures Aligned([a])
  {
    assert [a][..0] == [] && NonFixes([a]) == [] + [a];
    assert !HasFix([a]);
  }

  lemma BasketReady()
    ensures ImportReady([BASKET])
  {
    BasketThenFixesWellFormed([BASKET]);
    AlignedAlone(BASKET);
  }

  lemma BasketAlone()
    ensures Corrected(BASKET, [BASKET]) == BASKET && IsOpen(BASKET) && BASKET in [BASKET]
  {
    OverlayEmpty([BASKET], KeyOf(BASKET));
  }

  lemma VoidDoesNotHeal(db: Db)
    requires HasBasket(db.baskets, BASKET) && RawIn(db.baskets, BASKET) == BASKET
    ensures BASKET in [BASKET, VOIDING] && IsOpen(BASKET) && !Heals(BASKET, db, [BASKET, VOIDING])
  {
    var log := [BASKET, VOIDING];
    TwoRecords(BASKET, VOIDING);
    assert Get(Corrected(BASKET, log), Status) == VOIDED;
    assert StillAttached(BASKET, db, log) == {};
    NothingSums(log);
  }

  /** One record lost, with an import before another is appended and lost. */
  lemma HistoryOf(a: Record, b: Record)
    ensures var es := [Appended(a, false), Imported, Appended(b, false)];
      LogOf(es) == [a, b] && DbOf(es) == Import(EMPTY, [a]).db
  {
    var one := [] + [Appended(a, false)];
    HistoryAppend([], Appended(a, false));
    HistoryAppend(one, Imported);
    HistoryAppend(one + [Imported], Appended(b, false));
    assert [Appended(a, false), Imported, Appended(b, false)] == one + [Imported] + [Appended(b, false)];
    assert LogOf(one) == [a] && LogOf(one + [Imported]) == [a];
  }

  lemma NotHealed(es: seq<Event>, r: Record)
    requires ImportReady(LogOf(es))
    ensures var p := Import(DbOf(es), LogOf(es));
      r in LogOf(es) && IsOpen(r) && !Heals(r, DbOf(es), LogOf(es)) ==>
        p.ok && AsSet(View(p.db.baskets, p.db.closes)) != AsSet(OpenBaskets(LogOf(es)))
  {
    HistoryHealsExactly(es);
  }

  lemma LossStays(a: Record, b: Record)
    requires ImportReady([a, b])
    ensures var es := [Appended(a, false), Imported, Appended(b, false)];
      var p := Import(DbOf(es), LogOf(es));
      && LogOf(es) == [a, b]
      && (IsOpen(a) && !Heals(a, Import(EMPTY, [a]).db, [a, b]) ==>
           p.ok && AsSet(View(p.db.baskets, p.db.closes)) != AsSet(OpenBaskets(LogOf(es))))
  {
    HistoryOf(a, b);
    assert a in [a, b];
    NotHealed([Appended(a, false), Imported, Appended(b, false)], a);
  }

  lemma ImportedVoidStays()
    ensures ImportReady([BASKET, VOIDING]) && IsOpen(BASKET)
    ensures !Heals(BASKET, Import(EMPTY, [BASKET]).db, [BASKET, VOIDING])
  {
    VoidLogReady();
    BasketReady();
    BasketAlone();
    ImportedRow([BASKET], BASKET);
    VoidDoesNotHeal(Import(EMPTY, [BASKET]).db);
  }

  /** With imports in between it takes no live write at all: the basket is imported, its voiding correction is
      lost, and the next import leaves the basket open. */
  lemma {:induction false} LaterVoidStays() returns (es: seq<Event>)
    ensures ImportReady(LogOf(es)) && forall e :: e in es && e.Appended? ==> !e.mirrored
    ensures var (log, p) := (LogOf(es), Import(DbOf(es), LogOf(es)));
      p.ok && AsSet(View(p.db.baskets, p.db.closes)) != AsSet(OpenBaskets(log))
  {
    ImportedVoidStays();
    LossStays(BASKET, VOIDING);
    es := [Appended(BASKET, false), Imported, Appended(VOIDING, false)];
  }

  lemma CloseLogReady()
    ensures Lossy([CLOSING], [BASKET, CLOSING], [1])
  {
    var log := [BASKET, CLOSING];
    Sizes();
    TwoRecords(BASKET, CLOSING);
    assert !HasFix(log);
    assert Corrected(BASKET, log) == BASKET && Corrected(CLOSING, log) == CLOSING;
  }

  /** A close mirrored while its basket was missing is not healed: its row exists, so the import does not
      attach it, and the closed basket is shown in full. */
  lemma OrphanCloseStays() returns (log: seq<Record>, sub: seq<Record>)
    ensures Lossy(sub, log, [1])
    ensures var p := Import(MirrorOnto(EMPTY, sub), log);
      p.ok && AsSet(View(p.db.baskets, p.db.closes)) != AsSet(OpenBaskets(log))
  {
    log, sub := [BASKET, CLOSING], [CLOSING];
    CloseLogReady();
    OrphanDoesNotHeal();
    LossNotHealed(sub, log, [1], BASKET);
  }

  lemma ClosingUnwinds()
    ensures Unwound([BASKET, CLOSING], KeyOf(BASKET)) == 10.0
  {
    TwoRecords(BASKET, CLOSING);
    assert Unwound([], KeyOf(BASKET)) == 0.0;
    assert Unwound([BASKET], KeyOf(BASKET)) == 0.0;
  }

  lemma OrphanDoesNotHeal()
    ensures BASKET in [BASKET, CLOSING] && IsOpen(BASKET) && !HealsLoss(BASKET, [CLOSING], [BASKET, CLOSING])
  {
    var log, sub := [BASKET, CLOSING], [CLOSING];
    TwoRecords(BASKET, CLOSING);
    assert Corrected(BASKET, log) == BASKET;
    ClosingUnwinds();
    assert NotOrphaned(BASKET, sub, log) == {};
    NothingSums(log);
  }

  lemma {:induction false} FixLogReady()
    ensures Lossy([BASKET], [BASKET, Fix(2.0, 5.0), Fix(3.0, 6.0)], [0])
  {
    var f, g := Fix(2.0, 5.0), Fix(3.0, 6.0);
    var log := [BASKET, f, g];
    assert FieldsOk(FixFields(f)) && FieldsOk(FixFields(g)) && IsFix(f) && IsFix(g);
    BasketThenFixesWellFormed(log);
    TwoRecords(BASKET, f);
    assert log[..2] == [BASKET, f];
    assert IsFix(log[1]);
    AlignedRecords(log, log);
  }

  /** The second import is no full no-op: of two corrections of one cost, each import writes both again. */
  lemma ReimportRewrites() returns (log: seq<Record>)
    ensures Lossy([BASKET], log, [0])
    ensures var first := Import(MirrorOnto(EMPTY, [BASKET]), log).db;
      Import(first, log).db.audit != first.audit
  {
    var f, g := Fix(2.0, 5.0), Fix(3.0, 6.0);
    log := [BASKET, f, g];
    FixLogReady();
    Overwrites(log, f, g);
    LossyKept([BASKET], log, [0]);
    ReimportExactly(MirrorOnto(EMPTY, [BASKET]), log);
  }

  lemma Overwrites(log: seq<Record>, f: Record, g: Record)
    requires f == Fix(2.0, 5.0) && g == Fix(3.0, 6.0) && log == [BASKET, f, g]
    ensures !NothingOverwritten(log)
  {
    TwoRecords(BASKET, f);
    assert log[..2] == [BASKET, f];
    assert Overlay(log, KeyOf(BASKET)) == Overlay([BASKET, f], KeyOf(BASKET)) + map[Cost := Num(6.0)];
    assert Get(Corrected(BASKET, log), Cost) == Num(6.0) && IsOpen(Corrected(BASKET, log));
    assert f in log && BASKET in log && Cost in FixFields(f) && FixFields(f)[Cost] == Num(5.0);
  }
}
