/** The append-only trade ledger and its reference meaning (src/arbbot/exec/ledger.py): corrections are
    folded into their targets, then open records are netted by the unwound quantity. */
module Ledger {
  import opened Core

  /** The keys of a ledger record and of its legs. Changes is the nested "fields" dictionary of a correction. */
  datatype Field =
    | Ts | Rel | Status | Qty | Cost | Payoff | Profit | ClosesTs | CorrectsTs | Changes
    | Realized | Proceeds | Fees | Legs | Venue | MarketId | YesPrice | AvgPrice | Other(name: string)

  datatype Value =
    | Null
    | Num(n: real)
    | Str(s: string)
    | Flag(b: bool)
    | Obj(o: Record)
    | Arr(a: seq<Value>)

  type Record = map<Field, Value>

  /** (relationship id, timestamp): how closes and corrections address a record. */
  type Key = (Value, Value)

  const OPEN := Str("open")
  const UNWOUND := Str("unwound")
  const REALIZED := Str("realized")
  const CORRECTION := Str("correction")

  function Get(r: Record, f: Field): Value {
    if f in r then r[f] else Null
  }

  function KeyOf(r: Record): Key {
    (Get(r, Rel), Get(r, Ts))
  }

  predicate IsOpen(r: Record) {
    Get(r, Status) == OPEN
  }

  predicate IsFix(r: Record) {
    Get(r, Status) == CORRECTION && Get(r, CorrectsTs) != Null
  }

  function FixTarget(r: Record): Key {
    (Get(r, Rel), Get(r, CorrectsTs))
  }

  function FixFields(r: Record): Record {
    if Get(r, Changes).Obj? then Get(r, Changes).o else map[]
  }

  predicate IsUnwind(r: Record) {
    Get(r, Status) == UNWOUND && Get(r, ClosesTs) != Null
  }

  function UnwindTarget(r: Record): Key {
    (Get(r, Rel), Get(r, ClosesTs))
  }

  function QtyOf(r: Record): real {
    if Get(r, Qty).Num? then Get(r, Qty).n else 0.0
  }

  // ---------- specification functions ----------

  /** All corrections of one record, merged in ledger order. */
  function Overlay(log: seq<Record>, k: Key): Record {
    if log == [] then map[]
    else
      var r := log[|log| - 1];
      var before := Overlay(log[..|log| - 1], k);
      if IsFix(r) && FixTarget(r) == k then before + FixFields(r) else before
  }

  function Corrected(r: Record, log: seq<Record>): Record {
    r + Overlay(log, KeyOf(r))
  }

  predicate HasFix(log: seq<Record>) {
    exists i :: 0 <= i < |log| && IsFix(log[i])
  }

  function Survivors(part: seq<Record>, log: seq<Record>): seq<Record> {
    if part == [] then []
    else
      var r := part[|part| - 1];
      var before := Survivors(part[..|part| - 1], log);
      if Get(r, Status) == CORRECTION then before else before + [Corrected(r, log)]
  }

  function Folded(log: seq<Record>): seq<Record> {
    if HasFix(log) then Survivors(log, log) else log
  }

  function Unwound(log: seq<Record>, k: Key): real {
    if log == [] then 0.0
    else
      var r := log[|log| - 1];
      Unwound(log[..|log| - 1], k) + if IsUnwind(r) && UnwindTarget(r) == k then QtyOf(r) else 0.0
  }

  function ScaleField(r: Record, f: Field, frac: real): Record {
    if f in r && r[f].Num? then r[f := Num(r[f].n * frac)] else r
  }

  /** An open record net of what was closed: itself, a proportional copy, or nothing. */
  function Net(r: Record, closed: real): seq<Record> {
    var remaining := QtyOf(r) - closed;
    if closed <= 0.0 then [r]
    else if remaining <= 0.0 then []
    else
      var frac := remaining / QtyOf(r);
      [ScaleField(ScaleField(ScaleField(r[Qty := Num(remaining)], Cost, frac), Payoff, frac), Profit, frac)]
  }

  function Netted(part: seq<Record>, all: seq<Record>): seq<Record> {
    if part == [] then []
    else
      var r := part[|part| - 1];
      var before := Netted(part[..|part| - 1], all);
      if IsOpen(r) then before + Net(r, Unwound(all, KeyOf(r))) else before
  }

  function OpenBaskets(log: seq<Record>): seq<Record> {
    Netted(Folded(log), Folded(log))
  }

  // ---------- the loops ----------

  function Fixes(log: seq<Record>): map<Key, Record> {
    if log == [] then map[]
    else
      var r := log[|log| - 1];
      var fixes := Fixes(log[..|log| - 1]);
      if IsFix(r)
      then fixes[FixTarget(r) := (if FixTarget(r) in fixes then fixes[FixTarget(r)] else map[]) + FixFields(r)]
      else fixes
  }

  lemma {:induction false} FixesAreOverlays(log: seq<Record>, k: Key)
    ensures (if k in Fixes(log) then Fixes(log)[k] else map[]) == Overlay(log, k)
    ensures Fixes(log) == map[] <==> !HasFix(log)
  {
    if log != [] {
      FixesAreOverlays(log[..|log| - 1], k);
      var r := log[|log| - 1];
      if HasFix(log[..|log| - 1]) {
        var i :| 0 <= i < |log| - 1 && IsFix(log[..|log| - 1][i]);
        assert IsFix(log[i]);
      }
      if IsFix(r) {
        assert FixTarget(r) in Fixes(log);
      } else if HasFix(log) {
        var i :| 0 <= i < |log| && IsFix(log[i]);
        assert IsFix(log[..|log| - 1][i]);
      }
    }
  }

  method ApplyCorrections(records: seq<Record>) returns (out: seq<Record>)
    ensures out == Folded(records)
  {
    var fixes: map<Key, Record> := map[];
    for i := 0 to |records|
      invariant fixes == Fixes(records[..i])
    {
      var r := records[i];
      assert records[..i + 1][..i] == records[..i];
      if Get(r, Status) == CORRECTION && Get(r, CorrectsTs) != Null {
        var k := FixTarget(r);
        if k !in fixes { fixes := fixes[k := map[]]; }
        fixes := fixes[k := fixes[k] + FixFields(r)];
      }
    }
    assert records[..|records|] == records;
    FixesAreOverlays(records, (Null, Null));
    if fixes == map[] { return records; }
    out := [];
    for i := 0 to |records|
      invariant out == Survivors(records[..i], records)
    {
      var r := records[i];
      assert records[..i + 1][..i] == records[..i];
      FixesAreOverlays(records, KeyOf(r));
      if Get(r, Status) != CORRECTION {
        if KeyOf(r) in fixes && fixes[KeyOf(r)] != map[] {
          r := r + fixes[KeyOf(r)];
        } else {
          assert r + map[] == r;
        }
        out := out + [r];
      }
    }
    assert records[..|records|] == records;
  }

  function UnwoundTable(log: seq<Record>): map<Key, real> {
    if log == [] then map[]
    else
      var r := log[|log| - 1];
      var t := UnwoundTable(log[..|log| - 1]);
      if IsUnwind(r) then t[UnwindTarget(r) := (if UnwindTarget(r) in t then t[UnwindTarget(r)] else 0.0) + QtyOf(r)]
      else t
  }

  lemma {:induction false} TableIsUnwound(log: seq<Record>, k: Key)
    ensures (if k in UnwoundTable(log) then UnwoundTable(log)[k] else 0.0) == Unwound(log, k)
  {
    if log != [] { TableIsUnwound(log[..|log| - 1], k); }
  }

  method UnwoundQuantities(folded: seq<Record>) returns (unwound: map<Key, real>)
    ensures unwound == UnwoundTable(folded)
  {
    unwound := map[];
    for i := 0 to |folded|
      invariant unwound == UnwoundTable(folded[..i])
    {
      var r := folded[i];
      assert folded[..i + 1][..i] == folded[..i];
      if Get(r, Status) == UNWOUND && Get(r, ClosesTs) != Null {
        var k := UnwindTarget(r);
        unwound := unwound[k := (if k in unwound then unwound[k] else 0.0) + QtyOf(r)];
      }
    }
    assert folded[..|folded|] == folded;
  }

  /** One open record less what was closed: reduced in place, field by field. */
  method NetRecord(r: Record, closed: real) returns (out: seq<Record>)
    ensures out == Net(r, closed)
  {
    if closed <= 0.0 { return [r]; }
    var qty := QtyOf(r);
    var remaining := qty - closed;
    if remaining <= 0.0 { return []; }
    var scaled := r;
    var frac := remaining / qty;
    scaled := scaled[Qty := Num(remaining)];
    scaled := ScaleField(scaled, Cost, frac);
    scaled := ScaleField(scaled, Payoff, frac);
    scaled := ScaleField(scaled, Profit, frac);
    return [scaled];
  }

  method NetOpenBaskets(records: seq<Record>) returns (out: seq<Record>)
    ensures out == OpenBaskets(records)
  {
    var folded := ApplyCorrections(records);
    var unwound := UnwoundQuantities(folded);
    out := [];
    for i := 0 to |folded|
      invariant out == Netted(folded[..i], folded)
    {
      var r := folded[i];
      assert folded[..i + 1][..i] == folded[..i];
      if Get(r, Status) != OPEN { continue; }
      TableIsUnwound(folded, KeyOf(r));
      var net := NetRecord(r, if KeyOf(r) in unwound then unwound[KeyOf(r)] else 0.0);
      out := out + net;
    }
    assert folded[..|folded|] == folded;
  }

  // ---------- what netting means ----------

  lemma CancelFactor(x: real, y: real, q: real)
    requires q != 0.0 && x * q == y * q
    ensures x == y
  {
    assert (x - y) * q == 0.0;
  }

  lemma SharesAddUp(q: real, closed: real, x: real)
    requires q != 0.0
    ensures x * ((q - closed) / q) + x * (closed / q) == x
  {
    var s := (q - closed) / q + closed / q;
    assert s * q == (q - closed) / q * q + closed / q * q;
    CancelFactor(s, 1.0, q);
    assert x * s == x;
  }

  const MONEY := {Cost, Payoff, Profit}

  /** n is r with its quantity set to open and its money fields, where they are numbers, scaled. */
  ghost predicate Scaled(r: Record, n: Record, open: real, frac: real) {
    && n.Keys == r.Keys && Get(n, Qty) == Num(open)
    && (forall f :: f in r && f in MONEY && r[f].Num? ==> n[f] == Num(Times(r[f].n, frac)))
    && (forall f :: f in r && f != Qty && !(f in MONEY && r[f].Num?) ==> n[f] == r[f])
  }

  lemma ScaleFieldAt(r: Record, f: Field, frac: real)
    ensures var n := ScaleField(r, f, frac);
      && n.Keys == r.Keys && (f in r ==> n[f] == if r[f].Num? then Num(Times(r[f].n, frac)) else r[f])
      && forall g :: g in r && g != f ==> n[g] == r[g]
  {}

  lemma NetIsScaled(r: Record, closed: real)
    requires 0.0 < closed < QtyOf(r)
    ensures |Net(r, closed)| == 1
    ensures Scaled(r, Net(r, closed)[0], QtyOf(r) - closed, (QtyOf(r) - closed) / QtyOf(r))
  {
    var (open, frac) := (QtyOf(r) - closed, (QtyOf(r) - closed) / QtyOf(r));
    var n := r[Qty := Num(open)];
    var cost := ScaleField(n, Cost, frac);
    var payoff := ScaleField(cost, Payoff, frac);
    ScaleFieldAt(n, Cost, frac);
    ScaleFieldAt(cost, Payoff, frac);
    ScaleFieldAt(payoff, Profit, frac);
    assert Net(r, closed) == [ScaleField(payoff, Profit, frac)];
  }

  lemma TimesShares(q: real, closed: real, x: real)
    requires q != 0.0
    ensures Times(x, (q - closed) / q) + Times(x, closed / q) == x
  {
    SharesAddUp(q, closed, x);
  }

  /** The profit is the payoff less the cost. */
  predicate Identity(r: Record) {
    && Cost in r && Payoff in r && Profit in r && r[Cost].Num? && r[Payoff].Num? && r[Profit].Num?
    && r[Profit].n == r[Payoff].n - r[Cost].n
  }

  /** n is the open part of r: with the closed part its quantity and every money field add up to the whole, an exact
      profit identity survives, and everything else is as it was. */
  ghost predicate OpenPart(r: Record, n: Record, closed: real)
    requires QtyOf(r) > 0.0
  {
    && n.Keys == r.Keys && QtyOf(n) + closed == QtyOf(r)
    && (forall f :: f in r && f in MONEY && r[f].Num? ==>
         n[f].Num? && n[f].n + Times(r[f].n, closed / QtyOf(r)) == r[f].n)
    && (forall f :: f in r && f != Qty && !(f in MONEY && r[f].Num?) ==> n[f] == r[f])
    && (Identity(r) ==> Identity(n))
  }

  lemma ScaledIsOpenPart(r: Record, n: Record, closed: real)
    requires 0.0 < closed < QtyOf(r) && Scaled(r, n, QtyOf(r) - closed, (QtyOf(r) - closed) / QtyOf(r))
    ensures OpenPart(r, n, closed)
  {
    forall f | f in r && f in MONEY && r[f].Num?
      ensures n[f].Num? && n[f].n + Times(r[f].n, closed / QtyOf(r)) == r[f].n
    {
      TimesShares(QtyOf(r), closed, r[f].n);
    }
    if Identity(r) { TimesSubtracts(r[Payoff].n, r[Cost].n, (QtyOf(r) - closed) / QtyOf(r)); }
  }

  /** What is left of a record of which some was closed: all of it when that is nothing, none of it when that is all,
      and otherwise its open part. */
  lemma NetKeepsUnitEconomics(r: Record, closed: real)
    ensures closed <= 0.0 ==> Net(r, closed) == [r]
    ensures closed > 0.0 ==> (Net(r, closed) == [] <==> closed >= QtyOf(r))
    ensures 0.0 < closed < QtyOf(r) ==> |Net(r, closed)| == 1 && OpenPart(r, Net(r, closed)[0], closed)
  {
    if 0.0 < closed < QtyOf(r) {
      NetIsScaled(r, closed);
      ScaledIsOpenPart(r, Net(r, closed)[0], closed);
    }
  }
}
