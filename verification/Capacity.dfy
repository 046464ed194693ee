/** The capacity backtest (scripts/capacity_backtest.py): cutting a relationship's ticks into episodes, and
    spending a bankroll on takes in order of time. */
module Capacity {
  import opened Core

  // ---------- episodes ----------

  const GAP := 120.0

  function Flatten(es: seq<seq<real>>): seq<real> {
    if es == [] then [] else Flatten(es[..|es| - 1]) + es[|es| - 1]
  }

  predicate NoGap(e: seq<real>) {
    forall i :: 0 < i < |e| ==> e[i] - e[i - 1] <= 120.0
  }

  predicate Apart(a: seq<real>, b: seq<real>) {
    a != [] && b != [] ==> b[0] - a[|a| - 1] > 120.0
  }

  /** es cuts the ticks, given by their times, exactly at the gaps of more than two minutes. */
  ghost predicate CutsAtGaps(es: seq<seq<real>>, ticks: seq<real>) {
    && Flatten(es) == ticks
    && (forall e :: 0 <= e < |es| ==> es[e] != [] && NoGap(es[e]))
    && (forall e :: 0 < e < |es| ==> Apart(es[e - 1], es[e]))
  }

  method BuildEpisodes(ticks: seq<real>) returns (es: seq<seq<real>>)
    ensures CutsAtGaps(es, ticks)
  {
    es := [];
    var cur: seq<real> := [];
    for i := 0 to |ticks|
      invariant i > 0 ==> cur != [] && cur[|cur| - 1] == ticks[i - 1]
      invariant cur == [] ==> es == [] && i == 0
      invariant cur != [] ==> CutsAtGaps(es + [cur], ticks[..i])
    {
      var t := ticks[i];
      assert ticks[..i + 1] == ticks[..i] + [t];
      if cur == [] || t - cur[|cur| - 1] > GAP {
        if cur != [] {
          NewEpisode(es + [cur], ticks[..i], t);
          es := es + [cur];
        }
        cur := [t];
        FirstEpisode(t);
        assert es == [] ==> es + [cur] == [[t]];
      } else {
        SameEpisode(es, cur, ticks[..i], t);
        cur := cur + [t];
      }
    }
    assert ticks[..|ticks|] == ticks;
    if cur != [] { es := es + [cur]; }
  }

  lemma FlattenAppend(es: seq<seq<real>>, e: seq<real>)
    ensures Flatten(es + [e]) == Flatten(es) + e
  {
    assert (es + [e])[..|es|] == es;
  }

  lemma FirstEpisode(t: real)
    ensures CutsAtGaps([[t]], [t])
  {
    assert [[t]] == [] + [[t]];
    FlattenAppend([], [t]);
  }

  lemma NewEpisode(es: seq<seq<real>>, ticks: seq<real>, t: real)
    requires CutsAtGaps(es, ticks) && es != [] && t - es[|es| - 1][|es[|es| - 1]| - 1] > GAP
    ensures CutsAtGaps(es + [[t]], ticks + [t])
  {
    FlattenAppend(es, [t]);
  }

  lemma SameEpisode(es: seq<seq<real>>, cur: seq<real>, ticks: seq<real>, t: real)
    requires CutsAtGaps(es + [cur], ticks) && cur != [] && t - cur[|cur| - 1] <= GAP
    ensures CutsAtGaps(es + [cur + [t]], ticks + [t])
  {
    FlattenAppend(es, cur);
    FlattenAppend(es, cur + [t]);
    var (a, b) := (es + [cur], es + [cur + [t]]);
    assert NoGap(a[|es|]) && NoGap(cur + [t]);
    forall e | 0 <= e < |b| ensures b[e] != [] && NoGap(b[e]) {
      if e < |es| { assert b[e] == a[e]; }
    }
    forall e | 0 < e < |b| ensures Apart(b[e - 1], b[e]) {
      assert b[e - 1] == a[e - 1] && Apart(a[e - 1], a[e]);
    }
  }

  lemma CutsInit(es: seq<seq<real>>, ticks: seq<real>)
    requires CutsAtGaps(es, ticks) && es != []
    ensures CutsAtGaps(es[..|es| - 1], ticks[..|ticks| - |es[|es| - 1]|])
    ensures es[|es| - 1] == ticks[|ticks| - |es[|es| - 1]|..] && |es[|es| - 1]| <= |ticks|
  {
    assert ticks == Flatten(es[..|es| - 1]) + es[|es| - 1];
    assert forall e :: 0 <= e < |es| - 1 ==> es[..|es| - 1][e] == es[e];
  }

  /** The last episode starts at a gap, or at the first tick, and has none inside. */
  lemma LastStartsAtGap(es: seq<seq<real>>, ticks: seq<real>)
    requires CutsAtGaps(es, ticks) && es != []
    ensures |es[|es| - 1]| <= |ticks|
    ensures var s := |ticks| - |es[|es| - 1]|;
      && (s > 0 ==> ticks[s] - ticks[s - 1] > GAP)
      && forall i :: s < i < |ticks| ==> ticks[i] - ticks[i - 1] <= GAP
  {
    CutsInit(es, ticks);
    var last := es[|es| - 1];
    var s := |ticks| - |last|;
    forall i | s < i < |ticks| ensures ticks[i] - ticks[i - 1] <= GAP {
      assert ticks[i] == last[i - s] && ticks[i - 1] == last[i - 1 - s];
    }
    if |es| == 1 {
      assert es[..0] == [] && Flatten(es[..0]) == [];
    } else {
      CutsInit(es[..|es| - 1], ticks[..s]);
      var w := es[|es| - 2];
      assert w[|w| - 1] == ticks[..s][s - 1];
    }
  }

  lemma NoneIffEmpty(es: seq<seq<real>>, ticks: seq<real>)
    requires CutsAtGaps(es, ticks)
    ensures es == [] <==> ticks == []
  {
    if es != [] { CutsInit(es, ticks); }
  }

  /** There is only one way to cut. */
  lemma {:induction false} CutIsUnique(a: seq<seq<real>>, b: seq<seq<real>>, ticks: seq<real>)
    requires CutsAtGaps(a, ticks) && CutsAtGaps(b, ticks)
    ensures a == b
    decreases |ticks|
  {
    NoneIffEmpty(a, ticks);
    NoneIffEmpty(b, ticks);
    if a != [] {
      LastStartsAtGap(a, ticks);
      LastStartsAtGap(b, ticks);
      CutsInit(a, ticks);
      CutsInit(b, ticks);
      CutIsUnique(a[..|a| - 1], b[..|b| - 1], ticks[..|ticks| - |a[|a| - 1]|]);
      assert a == a[..|a| - 1] + [a[|a| - 1]] && b == b[..|b| - 1] + [b[|b| - 1]];
    }
  }

  // ---------- the bankroll ----------

  datatype Take = Take(rel: string, net: real, cost: real)

  datatype Account = Account(cap: real, used: real, profit: real, relUsed: map<string, real>, taken: nat)

  const PER_REL_FRAC := 0.15
  const PER_REL_MIN := 150.0

  function RelCap(bankroll: real): real {
    Max(PER_REL_MIN, bankroll * PER_REL_FRAC)
  }

  function RelUsed(a: Account, rel: string): real {
    if rel in a.relUsed then a.relUsed[rel] else 0.0
  }

  function Headroom(a: Account, relCap: real, rel: string): real {
    Min(a.cap, relCap - RelUsed(a, rel))
  }

  predicate Qualifies(t: Take, floor: real) {
    t.cost > 0.0 && t.net > 0.0 && t.net / t.cost >= floor
  }

  /** The fraction of a take that is funded. */
  function Fraction(a: Account, relCap: real, t: Take): real
    requires t.cost > 0.0
  {
    Min(1.0, Headroom(a, relCap, t.rel) / t.cost)
  }

  function Fund(a: Account, relCap: real, floor: real, t: Take): Account {
    if !Qualifies(t, floor) || Headroom(a, relCap, t.rel) <= 1.0 then a
    else
      var frac := Fraction(a, relCap, t);
      var spent := Times(t.cost, frac);
      Account(a.cap - spent, a.used + spent, a.profit + Times(t.net, frac),
              a.relUsed[t.rel := RelUsed(a, t.rel) + spent], a.taken + 1)
  }

  function Spend(bankroll: real, floor: real, takes: seq<Take>): Account {
    if takes == [] then Account(bankroll, 0.0, 0.0, map[], 0)
    else Fund(Spend(bankroll, floor, takes[..|takes| - 1]), RelCap(bankroll), floor, takes[|takes| - 1])
  }

  method BankrollCurve(bankroll: real, floor: real, takes: seq<Take>) returns (a: Account)
    ensures a == Spend(bankroll, floor, takes)
  {
    var cap, relCap := bankroll, RelCap(bankroll);
    var used, profit, relUsed, n := 0.0, 0.0, map[], 0;
    for i := 0 to |takes|
      invariant Account(cap, used, profit, relUsed, n) == Spend(bankroll, floor, takes[..i])
    {
      assert takes[..i + 1][..i] == takes[..i];
      var t := takes[i];
      if t.cost <= 0.0 || t.net <= 0.0 { continue; }
      if t.net / t.cost < floor { continue; }
      var before := if t.rel in relUsed then relUsed[t.rel] else 0.0;
      var headroom := Min(cap, relCap - before);
      if headroom <= 1.0 { continue; }
      var frac := Min(1.0, headroom / t.cost);
      profit := profit + Times(t.net, frac);
      used := used + Times(t.cost, frac);
      cap := cap - Times(t.cost, frac);
      relUsed := relUsed[t.rel := before + Times(t.cost, frac)];
      n := n + 1;
    }
    assert takes[..|takes|] == takes;
    return Account(cap, used, profit, relUsed, n);
  }

  /** The sum of a map's values over some of its keys. */
  ghost function Total(m: map<string, real>, keys: set<string>): real
    requires keys <= m.Keys
  {
    if keys == {} then 0.0
    else
      var k :| k in keys;
      m[k] + Total(m, keys - {k})
  }

  lemma {:induction false} TotalSplits(m: map<string, real>, keys: set<string>, k: string)
    requires keys <= m.Keys && k in keys
    ensures Total(m, keys) == m[k] + Total(m, keys - {k})
  {
    var j :| j in keys && Total(m, keys) == m[j] + Total(m, keys - {j});
    if j != k {
      TotalSplits(m, keys - {j}, k);
      TotalSplits(m, keys - {k}, j);
      assert keys - {j} - {k} == keys - {k} - {j};
    }
  }

  lemma {:induction false} TotalAgrees(m: map<string, real>, m': map<string, real>, keys: set<string>)
    requires keys <= m.Keys && keys <= m'.Keys && forall k :: k in keys ==> m[k] == m'[k]
    ensures Total(m, keys) == Total(m', keys)
  {
    if keys != {} {
      var k :| k in keys;
      TotalSplits(m, keys, k);
      TotalSplits(m', keys, k);
      TotalAgrees(m, m', keys - {k});
    }
  }

  lemma TotalUpdates(m: map<string, real>, k: string, more: real)
    ensures var m' := m[k := (if k in m then m[k] else 0.0) + more];
      Total(m', m'.Keys) == Total(m, m.Keys) + more
  {
    var m' := m[k := (if k in m then m[k] else 0.0) + more];
    TotalSplits(m', m'.Keys, k);
    if k in m {
      TotalSplits(m, m.Keys, k);
      assert m'.Keys - {k} == m.Keys - {k};
      TotalAgrees(m, m', m.Keys - {k});
    } else {
      assert m'.Keys - {k} == m.Keys;
      TotalAgrees(m, m', m.Keys);
    }
  }

  /** Nothing is lost or spent twice, no limit is broken, and the profit clears the floor. */
  ghost predicate Sound(a: Account, bankroll: real, floor: real) {
    && a.cap + a.used == bankroll && 0.0 <= a.used <= bankroll
    && Total(a.relUsed, a.relUsed.Keys) == a.used
    && (forall rel :: rel in a.relUsed ==> 0.0 < a.relUsed[rel] <= RelCap(bankroll))
    && a.profit >= Times(floor, a.used)
  }

  /** A funded take spends all of its cost or all of the headroom. */
  lemma SpendsWhatFits(a: Account, relCap: real, t: Take)
    requires t.cost > 0.0 && Headroom(a, relCap, t.rel) > 0.0
    ensures Times(t.cost, Fraction(a, relCap, t)) == Min(t.cost, Headroom(a, relCap, t.rel))
    ensures Fraction(a, relCap, t) > 0.0
  {
    var h := Headroom(a, relCap, t.rel);
    TimesQuotient(h, t.cost);
    TimesSwaps(t.cost, h / t.cost, 1.0);
    TimesZero(t.cost);
    if h / t.cost <= 1.0 {
      TimesGrows(t.cost, h / t.cost, 1.0);
    } else {
      TimesGrows(t.cost, 1.0, h / t.cost);
    }
    if h / t.cost <= 0.0 { TimesGrows(t.cost, h / t.cost, 0.0); }
  }

  lemma FundKeeps(a: Account, bankroll: real, floor: real, t: Take)
    requires Sound(a, bankroll, floor) && bankroll >= 0.0
    ensures Sound(Fund(a, RelCap(bankroll), floor, t), bankroll, floor)
  {
    var relCap := RelCap(bankroll);
    if Qualifies(t, floor) && Headroom(a, relCap, t.rel) > 1.0 {
      var frac := Fraction(a, relCap, t);
      var spent := Times(t.cost, frac);
      SpendsWhatFits(a, relCap, t);
      TotalUpdates(a.relUsed, t.rel, spent);
      ProfitClears(t, floor, frac);
      TimesAdds(a.used, spent, floor);
    }
  }

  lemma ProfitClears(t: Take, floor: real, frac: real)
    requires Qualifies(t, floor) && frac > 0.0
    ensures Times(t.net, frac) >= Times(floor, Times(t.cost, frac))
  {
    var rate := t.net / t.cost;
    TimesQuotient(t.net, t.cost);
    TimesSign(t.cost, frac);
    TimesGrows(Times(t.cost, frac), floor, rate);
    TimesSwaps(Times(t.cost, frac), floor, 1.0);
    TimesSwaps(Times(t.cost, frac), rate, 1.0);
    Associates(rate, t.cost, frac);
  }

  lemma Associates(a: real, b: real, c: real)
    ensures Times(a, Times(b, c)) == Times(Times(a, b), c)
  {}

  /** Greedy spending conserves the bankroll over any sequence of takes. */
  lemma {:induction false} SpendingIsSound(bankroll: real, floor: real, takes: seq<Take>)
    requires bankroll >= 0.0
    ensures Sound(Spend(bankroll, floor, takes), bankroll, floor)
  {
    if takes == [] {
      TimesZero(floor);
    } else {
      SpendingIsSound(bankroll, floor, takes[..|takes| - 1]);
      FundKeeps(Spend(bankroll, floor, takes[..|takes| - 1]), bankroll, floor, takes[|takes| - 1]);
    }
  }

  /** It is greedy: a take that clears the floor and is not funded in full leaves at most a dollar of room
      for its relationship, now and after any further takes. */
  lemma {:induction false} UnfundedMeansFull(bankroll: real, floor: real, takes: seq<Take>, i: nat)
    requires bankroll >= 0.0 && i < |takes| && Qualifies(takes[i], floor)
    requires var a := Spend(bankroll, floor, takes[..i]);
      Spend(bankroll, floor, takes[..i + 1]).used - a.used < takes[i].cost
    ensures Headroom(Spend(bankroll, floor, takes), RelCap(bankroll), takes[i].rel) <= 1.0
  {
    var relCap, rel := RelCap(bankroll), takes[i].rel;
    if i + 1 == |takes| {
      var a := Spend(bankroll, floor, takes[..i]);
      assert takes[..i + 1] == takes && takes[..i] == takes[..|takes| - 1];
      if Headroom(a, relCap, rel) > 1.0 { SpendsWhatFits(a, relCap, takes[i]); }
    } else {
      var init := takes[..|takes| - 1];
      assert init[..i] == takes[..i] && init[..i + 1] == takes[..i + 1];
      UnfundedMeansFull(bankroll, floor, init, i);
      var (a, t) := (Spend(bankroll, floor, init), takes[|takes| - 1]);
      if Headroom(a, relCap, t.rel) > 1.0 && Qualifies(t, floor) { SpendsWhatFits(a, relCap, t); }
    }
  }

  // ---------- what is spent on each take ----------

  function Sum(xs: seq<real>): real {
    if xs == [] then 0.0 else Sum(xs[..|xs| - 1]) + xs[|xs| - 1]
  }

  /** The part of the amounts that went to one relationship. */
  function SumOn(takes: seq<Take>, spent: seq<real>, rel: string): real
    requires |spent| == |takes|
  {
    if takes == [] then 0.0
    else
      var n := |takes| - 1;
      SumOn(takes[..n], spent[..n], rel) + if takes[n].rel == rel then spent[n] else 0.0
  }

  /** A take earns its net in proportion to what is spent of its cost. */
  function Earned(takes: seq<Take>, spent: seq<real>): real
    requires |spent| == |takes| && forall i :: 0 <= i < |takes| && spent[i] != 0.0 ==> takes[i].cost > 0.0
  {
    if takes == [] then 0.0
    else
      var n := |takes| - 1;
      Earned(takes[..n], spent[..n]) + if spent[n] != 0.0 then Times(takes[n].net, spent[n] / takes[n].cost) else 0.0
  }

  function Funded(spent: seq<real>): nat {
    if spent == [] then 0 else Funded(spent[..|spent| - 1]) + if spent[|spent| - 1] != 0.0 then 1 else 0
  }

  /** What is left for a relationship: of the bankroll, and of its share. */
  function Room(bankroll: real, takes: seq<Take>, spent: seq<real>, rel: string): real
    requires |spent| == |takes|
  {
    Min(bankroll - Sum(spent), Max(150.0, 0.15 * bankroll) - SumOn(takes, spent, rel))
  }

  /** What one more take gets, the earlier ones having got theirs. */
  function Granted(bankroll: real, floor: real, takes: seq<Take>, spent: seq<real>, t: Take): real
    requires |spent| == |takes|
  {
    var room := Room(bankroll, takes, spent, t.rel);
    if t.cost > 0.0 && t.net > 0.0 && t.net / t.cost >= floor && room > 1.0 then Min(t.cost, room) else 0.0
  }

  /** Each take in turn gets its cost or the room that the earlier ones left, whichever is less; nothing if it
      does not cost or earn anything, earns less than the floor, or the room is at most a dollar. */
  ghost predicate Greedy(bankroll: real, floor: real, takes: seq<Take>, spent: seq<real>) {
    && |spent| == |takes|
    && forall i :: 0 <= i < |takes| ==> spent[i] == Granted(bankroll, floor, takes[..i], spent[..i], takes[i])
  }

  lemma GreedyAppend(bankroll: real, floor: real, takes: seq<Take>, spent: seq<real>, t: Take)
    requires Greedy(bankroll, floor, takes, spent)
    ensures Greedy(bankroll, floor, takes + [t], spent + [Granted(bankroll, floor, takes, spent, t)])
  {
    var (ts, xs) := (takes + [t], spent + [Granted(bankroll, floor, takes, spent, t)]);
    assert ts[..|takes|] == takes && xs[..|takes|] == spent;
    forall i | 0 <= i < |ts| ensures xs[i] == Granted(bankroll, floor, ts[..i], xs[..i], ts[i]) {
      if i < |takes| { assert ts[..i] == takes[..i] && xs[..i] == spent[..i]; }
    }
  }

  /** The account tells of exactly those amounts. */
  ghost predicate Tells(a: Account, bankroll: real, takes: seq<Take>, spent: seq<real>)
    requires |spent| == |takes| && forall i :: 0 <= i < |takes| && spent[i] != 0.0 ==> takes[i].cost > 0.0
  {
    && a.used == Sum(spent) && a.cap == bankroll - Sum(spent)
    && a.profit == Earned(takes, spent) && a.taken == Funded(spent)
    && forall rel :: RelUsed(a, rel) == SumOn(takes, spent, rel)
  }

  lemma FundTells(a: Account, bankroll: real, floor: real, takes: seq<Take>, spent: seq<real>)
    requires takes != [] && Greedy(bankroll, floor, takes, spent)
    requires forall i :: 0 <= i < |takes| && spent[i] != 0.0 ==> takes[i].cost > 0.0
    requires Tells(a, bankroll, takes[..|takes| - 1], spent[..|takes| - 1])
    ensures Tells(Fund(a, RelCap(bankroll), floor, takes[|takes| - 1]), bankroll, takes, spent)
  {
    var (n, relCap) := (|takes| - 1, RelCap(bankroll));
    var (t, x) := (takes[n], spent[n]);
    assert Room(bankroll, takes[..n], spent[..n], t.rel) == Headroom(a, relCap, t.rel);
    if Qualifies(t, floor) && Headroom(a, relCap, t.rel) > 1.0 {
      SpendsWhatFits(a, relCap, t);
      FractionIs(a, relCap, t);
      var b := Fund(a, relCap, floor, t);
      assert x == Min(t.cost, Headroom(a, relCap, t.rel)) && x > 0.0;
      assert b.profit == a.profit + Times(t.net, x / t.cost);
      forall rel ensures RelUsed(b, rel) == SumOn(takes, spent, rel) {
        assert RelUsed(a, rel) == SumOn(takes[..n], spent[..n], rel);
      }
    } else {
      assert x == 0.0;
      forall rel ensures RelUsed(a, rel) == SumOn(takes, spent, rel) {
        assert RelUsed(a, rel) == SumOn(takes[..n], spent[..n], rel);
      }
    }
  }

  lemma FractionIs(a: Account, relCap: real, t: Take)
    requires t.cost > 0.0
    ensures Fraction(a, relCap, t) == Min(t.cost, Headroom(a, relCap, t.rel)) / t.cost
  {
    var h := Headroom(a, relCap, t.rel);
    TimesQuotient(h, t.cost);
    TimesZero(t.cost);
    TimesSwaps(t.cost, h / t.cost, 1.0);
    if h < t.cost && h / t.cost > 1.0 { TimesGrows(t.cost, 1.0, h / t.cost); }
    if h > t.cost && h / t.cost < 1.0 { TimesGrows(t.cost, h / t.cost, 1.0); }
  }

  /** The whole account, from what was granted alone: what is used and left, per relationship too, the exact
      profit, and how many takes were funded. */
  lemma {:induction false} SpendingIsGreedy(bankroll: real, floor: real, takes: seq<Take>)
    returns (spent: seq<real>)
    ensures Greedy(bankroll, floor, takes, spent)
    ensures forall i :: 0 <= i < |takes| && spent[i] != 0.0 ==> takes[i].cost > 0.0
    ensures Tells(Spend(bankroll, floor, takes), bankroll, takes, spent)
  {
    if takes == [] {
      spent := [];
    } else {
      var (init, t) := (takes[..|takes| - 1], takes[|takes| - 1]);
      var before := SpendingIsGreedy(bankroll, floor, init);
      spent := before + [Granted(bankroll, floor, init, before, t)];
      GreedyAppend(bankroll, floor, init, before, t);
      assert takes == init + [t] && spent[..|init|] == before;
      FundTells(Spend(bankroll, floor, init), bankroll, floor, takes, spent);
    }
  }
}
