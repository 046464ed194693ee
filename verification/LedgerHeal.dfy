/** The nightly import (scripts/import_ledger_to_sqlite.py): three passes over the whole ledger that must
    repair a database from which any of the live mirror writes are missing. */
module LedgerHeal {
  import opened Core
  import opened Ledger
  import opened LedgerDb
  import opened LedgerMirror

  // ---------- the import ----------

  function NonFixes(log: seq<Record>): seq<Record> {
    if log == [] then []
    else
      var before := NonFixes(log[..|log| - 1]);
      if Get(log[|log| - 1], Status) == CORRECTION then before else before + [log[|log| - 1]]
  }

  /** The import refuses to run when corrected records do not line up with raw ones. */
  predicate Aligned(log: seq<Record>) {
    |NonFixes(log)| == |Folded(log)|
  }

  datatype Progress = Progress(db: Db, ok: bool)

  /** Pass 1 stores corrected values under raw keys. */
  function Baskets(db: Db, raws: seq<Record>, log: seq<Record>): Progress {
    if raws == [] then Progress(db, true)
    else
      var before := Baskets(db, raws[..|raws| - 1], log);
      var r := raws[|raws| - 1];
      if !before.ok || !IsOpen(Corrected(r, log)) then before
      else
        var (db', o) := InsertBasket(before.db, Corrected(r, log), r);
        Progress(db', o != Raised)
  }

  function Closes(db: Db, raws: seq<Record>, log: seq<Record>): Progress {
    if raws == [] then Progress(db, true)
    else
      var before := Closes(db, raws[..|raws| - 1], log);
      var r := raws[|raws| - 1];
      if !before.ok || !IsClose(Corrected(r, log)) then before
      else
        var (db', o) := InsertClose(before.db, Corrected(r, log), r);
        Progress(db', o != Raised)
  }

  function StatusTable(recs: seq<Record>): map<Key, Value> {
    if recs == [] then map[]
    else StatusTable(recs[..|recs| - 1])[KeyOf(recs[|recs| - 1]) := Get(recs[|recs| - 1], Status)]
  }

  /** Pass 3 re-applies every correction whose target is open in the corrected view. */
  function Corrections(db: Db, part: seq<Record>, table: map<Key, Value>): Progress {
    if part == [] then Progress(db, true)
    else
      var before := Corrections(db, part[..|part| - 1], table);
      var r := part[|part| - 1];
      if !before.ok || !IsFix(r) || FixTarget(r) !in table || table[FixTarget(r)] != OPEN then before
      else
        var (db', c) := Correct(before.db, r);
        Progress(db', !c.Failed?)
  }

  function Import(db: Db, log: seq<Record>): Progress {
    if !Aligned(log) then Progress(db, false)
    else
      var one := Baskets(db, NonFixes(log), log);
      if !one.ok then one
      else
        var two := Closes(one.db, NonFixes(log), log);
        if !two.ok then two else Corrections(two.db, log, StatusTable(Folded(log)))
  }

  lemma {:induction false} AlignedRecords(part: seq<Record>, log: seq<Record>)
    ensures |Survivors(part, log)| == |NonFixes(part)|
    ensures forall i :: 0 <= i < |NonFixes(part)| ==> Survivors(part, log)[i] == Corrected(NonFixes(part)[i], log)
    ensures |NonFixes(part)| <= |part|
    ensures |NonFixes(part)| == |part| ==> NonFixes(part) == part
  {
    if part != [] { AlignedRecords(part[..|part| - 1], log); }
  }

  lemma FoldedIsCorrected(log: seq<Record>)
    requires Aligned(log)
    ensures forall i :: 0 <= i < |Folded(log)| ==> Folded(log)[i] == Corrected(NonFixes(log)[i], log)
  {
    AlignedRecords(log, log);
    if !HasFix(log) {
      forall i | 0 <= i < |log| ensures Corrected(log[i], log) == log[i] { OverlayEmpty(log, KeyOf(log[i])); }
    }
  }

  lemma BasketsStep(db: Db, raws: seq<Record>, log: seq<Record>, i: nat)
    requires i < |raws| && Baskets(db, raws[..i], log).ok
    ensures var before := Baskets(db, raws[..i], log);
      Baskets(db, raws[..i + 1], log) ==
      if !IsOpen(Corrected(raws[i], log)) then before
      else
        var (db', o) := InsertBasket(before.db, Corrected(raws[i], log), raws[i]);
        Progress(db', o != Raised)
  {
    assert raws[..i + 1][..i] == raws[..i];
  }

  method PassBaskets(conn: TradingDb, survivors: seq<Record>, corrected: seq<Record>, ghost raw: seq<Record>)
    returns (ok: bool)
    requires |survivors| == |corrected|
    requires forall i :: 0 <= i < |corrected| ==> corrected[i] == Corrected(survivors[i], raw)
    modifies conn
    ensures Progress(conn.State(), ok) == Baskets(old(conn.State()), survivors, raw)
  {
    ghost var start := conn.State();
    for i := 0 to |survivors|
      invariant Progress(conn.State(), true) == Baskets(start, survivors[..i], raw)
    {
      BasketsStep(start, survivors, raw, i);
      if Get(corrected[i], Status) == OPEN {
        var o := conn.RecordBasket(corrected[i], survivors[i]);
        if o == Raised {
          BasketsStop(start, survivors, raw, i + 1);
          return false;
        }
      }
    }
    assert survivors[..|survivors|] == survivors;
    return true;
  }

  lemma ClosesStep(db: Db, raws: seq<Record>, log: seq<Record>, i: nat)
    requires i < |raws| && Closes(db, raws[..i], log).ok
    ensures var before := Closes(db, raws[..i], log);
      Closes(db, raws[..i + 1], log) ==
      if !IsClose(Corrected(raws[i], log)) then before
      else
        var (db', o) := InsertClose(before.db, Corrected(raws[i], log), raws[i]);
        Progress(db', o != Raised)
  {
    assert raws[..i + 1][..i] == raws[..i];
  }

  method PassCloses(conn: TradingDb, survivors: seq<Record>, corrected: seq<Record>, ghost raw: seq<Record>)
    returns (ok: bool)
    requires |survivors| == |corrected|
    requires forall i :: 0 <= i < |corrected| ==> corrected[i] == Corrected(survivors[i], raw)
    modifies conn
    ensures Progress(conn.State(), ok) == Closes(old(conn.State()), survivors, raw)
  {
    ghost var start := conn.State();
    for i := 0 to |survivors|
      invariant Progress(conn.State(), true) == Closes(start, survivors[..i], raw)
    {
      ClosesStep(start, survivors, raw, i);
      if Get(corrected[i], Status) == UNWOUND || Get(corrected[i], Status) == REALIZED {
        var o := conn.RecordClose(corrected[i], survivors[i]);
        if o == Raised {
          ClosesStop(start, survivors, raw, i + 1);
          return false;
        }
      }
    }
    assert survivors[..|survivors|] == survivors;
    return true;
  }

  lemma CorrectionsStep(db: Db, part: seq<Record>, table: map<Key, Value>, i: nat)
    requires i < |part| && Corrections(db, part[..i], table).ok
    ensures var (before, r) := (Corrections(db, part[..i], table), part[i]);
      Corrections(db, part[..i + 1], table) ==
      if !IsFix(r) || FixTarget(r) !in table || table[FixTarget(r)] != OPEN then before
      else
        var (db', c) := Correct(before.db, r);
        Progress(db', !c.Failed?)
  {
    assert part[..i + 1][..i] == part[..i];
  }

  method PassCorrections(conn: TradingDb, raw: seq<Record>, correctedStatus: map<Key, Value>) returns (ok: bool)
    modifies conn
    ensures Progress(conn.State(), ok) == Corrections(old(conn.State()), raw, correctedStatus)
  {
    ghost var start := conn.State();
    for i := 0 to |raw|
      invariant Progress(conn.State(), true) == Corrections(start, raw[..i], correctedStatus)
    {
      var r := raw[i];
      CorrectionsStep(start, raw, correctedStatus, i);
      if Get(r, Status) != CORRECTION || Get(r, CorrectsTs) == Null { continue; }
      if FixTarget(r) !in correctedStatus || correctedStatus[FixTarget(r)] != OPEN { continue; }
      var c := conn.ApplyCorrection(r);
      if c.Failed? {
        CorrectionsStop(start, raw, correctedStatus, i + 1);
        return false;
      }
    }
    assert raw[..|raw|] == raw;
    return true;
  }

  /** The records that are not corrections, in ledger order. */
  method Uncorrecting(raw: seq<Record>) returns (survivors: seq<Record>)
    ensures survivors == NonFixes(raw)
  {
    survivors := [];
    for i := 0 to |raw|
      invariant survivors == NonFixes(raw[..i])
    {
      assert raw[..i + 1][..i] == raw[..i];
      if Get(raw[i], Status) != CORRECTION { survivors := survivors + [raw[i]]; }
    }
    assert raw[..|raw|] == raw;
  }

  method StatusOf(corrected: seq<Record>) returns (table: map<Key, Value>)
    ensures table == StatusTable(corrected)
  {
    table := map[];
    for i := 0 to |corrected|
      invariant table == StatusTable(corrected[..i])
    {
      assert corrected[..i + 1][..i] == corrected[..i];
      table := table[KeyOf(corrected[i]) := Get(corrected[i], Status)];
    }
    assert corrected[..|corrected|] == corrected;
  }

  method ImportLedger(conn: TradingDb, raw: seq<Record>) returns (ok: bool)
    modifies conn
    ensures Progress(conn.State(), ok) == Import(old(conn.State()), raw)
  {
    var corrected := ApplyCorrections(raw);
    var survivors := Uncorrecting(raw);
    if |survivors| != |corrected| { return false; }
    FoldedIsCorrected(raw);
    var correctedStatus := StatusOf(corrected);
    ok := PassBaskets(conn, survivors, corrected, raw);
    if !ok { return; }
    ok := PassCloses(conn, survivors, corrected, raw);
    if !ok { return; }
    ok := PassCorrections(conn, raw, correctedStatus);
  }

  lemma {:induction false} BasketsStop(db: Db, raws: seq<Record>, log: seq<Record>, n: nat)
    requires n <= |raws| && !Baskets(db, raws[..n], log).ok
    ensures Baskets(db, raws, log) == Baskets(db, raws[..n], log)
  {
    if n < |raws| {
      assert raws[..|raws| - 1][..n] == raws[..n];
      BasketsStop(db, raws[..|raws| - 1], log, n);
    } else {
      assert raws[..n] == raws;
    }
  }

  lemma {:induction false} ClosesStop(db: Db, raws: seq<Record>, log: seq<Record>, n: nat)
    requires n <= |raws| && !Closes(db, raws[..n], log).ok
    ensures Closes(db, raws, log) == Closes(db, raws[..n], log)
  {
    if n < |raws| {
      assert raws[..|raws| - 1][..n] == raws[..n];
      ClosesStop(db, raws[..|raws| - 1], log, n);
    } else {
      assert raws[..n] == raws;
    }
  }

  lemma {:induction false} CorrectionsStop(db: Db, part: seq<Record>, table: map<Key, Value>, n: nat)
    requires n <= |part| && !Corrections(db, part[..n], table).ok
    ensures Corrections(db, part, table) == Corrections(db, part[..n], table)
  {
    if n < |part| {
      assert part[..|part| - 1][..n] == part[..n];
      CorrectionsStop(db, part[..|part| - 1], table, n);
    } else {
      assert part[..n] == part;
    }
  }

  // ---------- when the import fails ----------

  /** The alignment check can only fail for a ledger whose corrections all lack their target: then none is folded
      away, and the import does not run. */
  lemma AlignedIff(log: seq<Record>)
    ensures Aligned(log) <==> HasFix(log) || forall r :: r in log ==> Get(r, Status) != CORRECTION
  {
    AlignedRecords(log, log);
    if !HasFix(log) { NonFixesIsAll(log); }
  }

  lemma {:induction false} NonFixesIsAll(log: seq<Record>)
    ensures |NonFixes(log)| == |log| <==> forall r :: r in log ==> Get(r, Status) != CORRECTION
    ensures |NonFixes(log)| <= |log|
  {
    if log != [] {
      NonFixesIsAll(log[..|log| - 1]);
      assert log == log[..|log| - 1] + [log[|log| - 1]];
    }
  }

  /** The corrected record is refused as a basket: its own columns, or the legs of one that is not stored yet. */
  predicate BasketRefused(db: Db, r: Record, log: seq<Record>) {
    var c := Corrected(r, log);
    IsOpen(c) && (!ColsOk(c) || (!HasBasket(db.baskets, r) && !LegsOk(Get(c, Legs))))
  }

  predicate CloseRefused(r: Record, log: seq<Record>) {
    IsClose(Corrected(r, log)) && !CloseStorable(Corrected(r, log))
  }

  lemma {:induction false} BasketsOkIff(db: Db, raws: seq<Record>, log: seq<Record>)
    ensures var p := Baskets(db, raws, log);
      && (p.ok <==> forall r :: r in raws ==> !BasketRefused(db, r, log))
      && p.db.closes == db.closes && p.db.audit == db.audit && db.baskets <= p.db.baskets
      && (p.ok ==> forall k :: HasBasket(p.db.baskets, k) <==>
           HasBasket(db.baskets, k) || (k in raws && IsOpen(Corrected(k, log))))
  {
    if raws != [] {
      var (init, r) := (raws[..|raws| - 1], raws[|raws| - 1]);
      BasketsOkIff(db, init, log);
      assert r in raws && forall x :: x in raws <==> x in init || x == r;
      var before := Baskets(db, init, log);
      if before.ok && IsOpen(Corrected(r, log)) {
        InsertedHas(before.db, Corrected(r, log), r);
        assert HasBasket(before.db.baskets, r) <==> HasBasket(db.baskets, r) || r in init;
        if r in init { assert !BasketRefused(db, r, log); }
      }
    }
  }

  lemma InsertedHas(db: Db, c: Record, key: Record)
    ensures var (t, o) := InsertBasket(db, c, key);
      && (o == Raised <==> !ColsOk(c) || (!HasBasket(db.baskets, key) && !LegsOk(Get(c, Legs))))
      && (o != Raised ==> forall k :: HasBasket(t.baskets, k) <==> HasBasket(db.baskets, k) || k == key)
  {
    var t := InsertBasket(db, c, key).0;
    if InsertBasket(db, c, key).1 == Inserted {
      forall k ensures HasBasket(t.baskets, k) <==> HasBasket(db.baskets, k) || k == key {
        assert t.baskets[|db.baskets|].key == key;
        if HasBasket(db.baskets, k) {
          var i :| 0 <= i < |db.baskets| && db.baskets[i].key == k;
          assert t.baskets[i] == db.baskets[i];
        }
      }
    }
  }

  lemma {:induction false} ClosesOkIff(db: Db, raws: seq<Record>, log: seq<Record>)
    ensures var p := Closes(db, raws, log);
      && (p.ok <==> forall r :: r in raws ==> !CloseRefused(r, log))
      && p.db.baskets == db.baskets && p.db.audit == db.audit && db.closes <= p.db.closes
  {
    if raws != [] {
      var (init, r) := (raws[..|raws| - 1], raws[|raws| - 1]);
      ClosesOkIff(db, init, log);
      assert r in raws && forall x :: x in raws <==> x in init || x == r;
    }
  }

  /** Exactly when the import fails, and what it leaves: before the first pass nothing is touched, in it only rows are
      added to the baskets, in the second only to the closes too, and only the third changes a row. */
  lemma ImportFailsExactly(db: Db, log: seq<Record>)
    ensures var p := Import(db, log);
      && (!Aligned(log) ==> p == Progress(db, false))
      && (Aligned(log) && (exists r :: r in NonFixes(log) && BasketRefused(db, r, log)) ==>
           !p.ok && db.baskets <= p.db.baskets && p.db.closes == db.closes && p.db.audit == db.audit)
      && (Aligned(log) && (forall r :: r in NonFixes(log) ==> !BasketRefused(db, r, log))
          && (exists r :: r in NonFixes(log) && CloseRefused(r, log)) ==>
           !p.ok && db.baskets <= p.db.baskets && db.closes <= p.db.closes && p.db.audit == db.audit)
      && (Aligned(log)
          && (forall r :: r in NonFixes(log) ==> !BasketRefused(db, r, log) && !CloseRefused(r, log)) ==>
           p == Corrections(Closes(Baskets(db, NonFixes(log), log).db, NonFixes(log), log).db, log,
                            StatusTable(Folded(log))))
  {
    BasketsOkIff(db, NonFixes(log), log);
    ClosesOkIff(Baskets(db, NonFixes(log), log).db, NonFixes(log), log);
  }
}
