/** The watchdog's gauge evaluator (scripts/gauge_deltas.py). One poll reads a stats line and the state left
    by an earlier poll. */
module Gauges {
  import opened Core

  const SUSTAIN_MIN_POLL := 240.0
  const SUSTAIN_MAX_GAP := 900.0
  const CARRY_MAX := 12

  /** A row of the watch list. */
  datatype Rule =
    | Rise(gauge: string, threshold: int)
    | Sustained(gauge: string, level: int, polls: nat)

  /** A parsed stats line and the unit's invocation id, empty when unknown. */
  datatype Sample = Sample(gauges: map<string, int>, elapsed: Option<real>, invocation: string)

  /** A line of the report. Lines with the same text are the same verdict. */
  datatype Verdict =
    | Vanished(names: set<string>)
    | NeverSeen(names: set<string>)
    | Restart
    | Held(rule: Rule, value: int, samples: int, span: int)
    | Risen(rule: Rule, delta: int, value: int, restarted: bool)

  datatype Streak = Streak(n: nat, at: real, since: real, fired: bool)

  /** A gauge may carry two sustain rules at different levels. */
  type Key = (string, int)

  datatype State = State(base: map<string, int>, elapsed: real, absent: set<string>, streak: map<Key, Streak>,
                         invocation: string, seen: set<string>, carry: seq<Verdict>)

  /** The restart discriminator is watched like a gauge. */
  const ELAPSED := "elapsed_s"

  function Names(rules: seq<Rule>): set<string> {
    (set r | r in rules :: r.gauge) + {ELAPSED}
  }

  predicate Present(cur: Sample, name: string) {
    if name == ELAPSED then cur.elapsed.Some? else name in cur.gauges
  }

  function Clock(cur: Sample): real {
    if cur.elapsed.Some? then cur.elapsed.value else 0.0
  }

  predicate Cold(prev: Option<State>, cur: Sample) {
    prev.None? || cur.elapsed.None?
  }

  predicate Restarted(prev: Option<State>, cur: Sample) {
    && !Cold(prev, cur)
    && ( || (cur.invocation != "" && prev.value.invocation != "" && cur.invocation != prev.value.invocation)
         || Clock(cur) < prev.value.elapsed)
  }

  function Absent(rules: seq<Rule>, cur: Sample): set<string> {
    set n | n in Names(rules) && !Present(cur, n)
  }

  function Header(rules: seq<Rule>, prev: Option<State>, cur: Sample): seq<Verdict> {
    var gone := Absent(rules, cur) - if prev.Some? then prev.value.absent else {};
    var seen := if prev.Some? then prev.value.seen else {};
    (if gone * seen != {} then [Vanished(gone * seen)] else [])
    + (if gone - seen != {} then [NeverSeen(gone - seen)] else [])
    + (if Restarted(prev, cur) then [Restart] else [])
  }

  const NO_STREAK := Streak(0, 0.0, 0.0, false)

  function PrevStreak(prev: Option<State>, key: Key): Streak {
    if prev.Some? && key in prev.value.streak then prev.value.streak[key] else NO_STREAK
  }

  /** A streak date of zero is taken for a missing one. */
  function Redated(since: real, now: real): real {
    if since == 0.0 then now else since
  }

  predicate Long(rule: Rule, n: nat, span: real)
    requires rule.Sustained?
  {
    n >= rule.polls && span >= (rule.polls as real - 1.0) * SUSTAIN_MIN_POLL
  }

  /** The streak with this sample counted, before it may fire. */
  function Counted(rule: Rule, prev: Option<State>, cur: Sample): Streak
    requires rule.Sustained? && rule.gauge in cur.gauges
  {
    var p := PrevStreak(prev, (rule.gauge, rule.level));
    var now := Clock(cur);
    var broken := Cold(prev, cur) || Restarted(prev, cur) || now - p.at > SUSTAIN_MAX_GAP;
    if cur.gauges[rule.gauge] < rule.level then Streak(0, now, Redated(p.since, now), false)
    else if broken || p.n == 0 then Streak(1, now, now, false)
    else Streak(p.n + 1, now, Redated(p.since, now), p.fired)
  }

  predicate Fires(rule: Rule, prev: Option<State>, cur: Sample) {
    && rule.Sustained? && rule.gauge in cur.gauges
    && var c := Counted(rule, prev, cur);
       !c.fired && Long(rule, c.n, Clock(cur) - c.since)
  }

  function RowStreak(rule: Rule, prev: Option<State>, cur: Sample): Streak
    requires rule.Sustained? && rule.gauge in cur.gauges
  {
    var c := Counted(rule, prev, cur);
    c.(fired := c.fired || Fires(rule, prev, cur))
  }

  /** The increase a RISE row sees. */
  function Delta(gauge: string, prev: Option<State>, cur: Sample): int
    requires gauge in cur.gauges
  {
    var base := if prev.None? || Restarted(prev, cur) || gauge !in prev.value.base then 0 else prev.value.base[gauge];
    cur.gauges[gauge] - if base < cur.gauges[gauge] then base else cur.gauges[gauge]
  }

  function RowOut(rule: Rule, prev: Option<State>, cur: Sample): seq<Verdict> {
    if rule.gauge !in cur.gauges then []
    else
      match rule
      case Sustained(gauge, _, _) =>
        var c := Counted(rule, prev, cur);
        if Fires(rule, prev, cur) then [Held(rule, cur.gauges[gauge], c.n, (Clock(cur) - c.since).Floor)] else []
      case Rise(gauge, threshold) =>
        var delta := Delta(gauge, prev, cur);
        if !Cold(prev, cur) && delta > threshold
        then [Risen(rule, delta, cur.gauges[gauge], Restarted(prev, cur))] else []
  }

  function RowsOut(rules: seq<Rule>, prev: Option<State>, cur: Sample): seq<Verdict> {
    if rules == [] then [] else RowsOut(rules[..|rules| - 1], prev, cur) + RowOut(rules[|rules| - 1], prev, cur)
  }

  function Out(rules: seq<Rule>, prev: Option<State>, cur: Sample): seq<Verdict> {
    Header(rules, prev, cur) + RowsOut(rules, prev, cur)
  }

  function Streaks(rules: seq<Rule>, prev: Option<State>, cur: Sample): map<Key, Streak> {
    if rules == [] then map[]
    else
      var before, r := Streaks(rules[..|rules| - 1], prev, cur), rules[|rules| - 1];
      if r.Sustained? && r.gauge in cur.gauges then before[(r.gauge, r.level) := RowStreak(r, prev, cur)] else before
  }

  function Dedupe(vs: seq<Verdict>): seq<Verdict> {
    if vs == [] then []
    else
      var before, v := Dedupe(vs[..|vs| - 1]), vs[|vs| - 1];
      if v in before then before else before + [v]
  }

  function Newest(vs: seq<Verdict>): seq<Verdict> {
    if |vs| > CARRY_MAX then vs[|vs| - CARRY_MAX..] else vs
  }

  function Carried(prev: Option<State>): seq<Verdict> {
    if prev.None? then []
    else if |prev.value.carry| > CARRY_MAX then prev.value.carry[..CARRY_MAX] else prev.value.carry
  }

  function Baseline(rules: seq<Rule>, cur: Sample): map<string, int> {
    map r | r in rules && r.gauge in cur.gauges :: r.gauge := cur.gauges[r.gauge]
  }

  function SeenAfter(rules: seq<Rule>, prev: Option<State>, cur: Sample): set<string> {
    (if prev.Some? then prev.value.seen else {}) + (set n | n in Names(rules) && Present(cur, n))
  }

  /** The state after a poll; its verdicts are carried on unless an alert went out. */
  function Next(rules: seq<Rule>, prev: Option<State>, cur: Sample, delivered: bool): State {
    State(Baseline(rules, cur), Clock(cur), Absent(rules, cur), Streaks(rules, prev, cur), cur.invocation,
          SeenAfter(rules, prev, cur),
          if delivered then [] else Newest(Dedupe(Carried(prev) + Out(rules, prev, cur))))
  }

  // ---------- the program ----------

  method EvaluateSustained(rule: Rule, prev: Option<State>, cur: Sample, broken: bool)
    returns (streak: Streak, out: seq<Verdict>)
    requires rule.Sustained? && rule.gauge in cur.gauges && broken == (Cold(prev, cur) || Restarted(prev, cur))
    ensures streak == RowStreak(rule, prev, cur) && out == RowOut(rule, prev, cur)
  {
    var key, value, now := (rule.gauge, rule.level), cur.gauges[rule.gauge], Clock(cur);
    var n, at, since, fired := 0, 0.0, now, false;
    if prev.Some? && key in prev.value.streak {
      var p := prev.value.streak[key];
      n, at, since, fired := p.n, p.at, Redated(p.since, now), p.fired;
    }
    if value < rule.level {
      n, fired := 0, false;
    } else if broken || now - at > SUSTAIN_MAX_GAP || n == 0 {
      n, since, fired := 1, now, false;
    } else {
      n := n + 1;
    }
    out := [];
    var span := now - since;
    if !fired && n >= rule.polls && span >= (rule.polls as real - 1.0) * SUSTAIN_MIN_POLL {
      fired := true;
      out := [Held(rule, value, n, span.Floor)];
    }
    streak := Streak(n, now, since, fired);
  }

  method EvaluateRows(rules: seq<Rule>, prev: Option<State>, cur: Sample)
    returns (out: seq<Verdict>, streak: map<Key, Streak>)
    ensures out == RowsOut(rules, prev, cur) && streak == Streaks(rules, prev, cur)
  {
    var cold, restarted := Cold(prev, cur), Restarted(prev, cur);
    out, streak := [], map[];
    for i := 0 to |rules|
      invariant out == RowsOut(rules[..i], prev, cur) && streak == Streaks(rules[..i], prev, cur)
    {
      assert rules[..i + 1][..i] == rules[..i];
      var rule := rules[i];
      if rule.gauge !in cur.gauges { continue; }
      if rule.Sustained? {
        var row, said := EvaluateSustained(rule, prev, cur, cold || restarted);
        out, streak := out + said, streak[(rule.gauge, rule.level) := row];
        continue;
      }
      if cold { continue; }
      var value := cur.gauges[rule.gauge];
      var base := if restarted || rule.gauge !in prev.value.base then 0 else prev.value.base[rule.gauge];
      if value < base { base := value; }
      if value - base > rule.threshold { out := out + [Risen(rule, value - base, value, restarted)]; }
    }
    assert rules[..|rules|] == rules;
  }

  method KeepOnce(vs: seq<Verdict>) returns (keep: seq<Verdict>)
    ensures keep == Dedupe(vs)
  {
    var seen: set<Verdict> := {};
    keep := [];
    for i := 0 to |vs|
      invariant keep == Dedupe(vs[..i]) && seen == set v | v in keep
    {
      assert vs[..i + 1][..i] == vs[..i];
      if vs[i] !in seen { seen, keep := seen + {vs[i]}, keep + [vs[i]]; }
    }
    assert vs[..|vs|] == vs;
  }

  /** One run of the evaluator: the report, and the two candidate states of which the caller adopts one. */
  method Evaluate(rules: seq<Rule>, prev: Option<State>, cur: Sample)
    returns (replayed: seq<Verdict>, out: seq<Verdict>, delivered: State, held: State)
    ensures replayed == Carried(prev) && out == Out(rules, prev, cur)
    ensures delivered == Next(rules, prev, cur, true) && held == Next(rules, prev, cur, false)
  {
    replayed := Carried(prev);
    var rows, streak := EvaluateRows(rules, prev, cur);
    out := Header(rules, prev, cur) + rows;
    var keep := KeepOnce(replayed + out);
    delivered := State(Baseline(rules, cur), Clock(cur), Absent(rules, cur), streak, cur.invocation,
                       SeenAfter(rules, prev, cur), []);
    held := delivered.(carry := Newest(keep));
  }

  // ---------- histories ----------

  /** One poll of a history: whether the state file was lost before it, the stats line, and whether an alert
      went out after it. */
  datatype Poll = Poll(lost: bool, sample: Sample, delivered: bool)

  function Before(rules: seq<Rule>, h: seq<Poll>, k: nat): Option<State>
    requires k < |h|
    decreases k, 0
  {
    if k == 0 || h[k].lost then None else Some(After(rules, h, k - 1))
  }

  function After(rules: seq<Rule>, h: seq<Poll>, k: nat): State
    requires k < |h|
    decreases k, 1
  {
    Next(rules, Before(rules, h, k), h[k].sample, h[k].delivered)
  }

  /** Poll k observes the same process as poll k - 1, without a hole in between. */
  predicate Linked(h: seq<Poll>, k: nat)
    requires k < |h|
  {
    && k > 0 && !h[k].lost && h[k].sample.elapsed.Some?
    && !(h[k].sample.invocation != "" && h[k - 1].sample.invocation != ""
      && h[k].sample.invocation != h[k - 1].sample.invocation)
    && 0.0 <= Clock(h[k].sample) - Clock(h[k - 1].sample) <= 900.0
  }

  predicate High(rule: Rule, h: seq<Poll>, k: nat)
    requires k < |h| && rule.Sustained?
  {
    rule.gauge in h[k].sample.gauges && h[k].sample.gauges[rule.gauge] >= rule.level
  }

  /** Polls j to k form one unbroken stretch at or above the level, and no longer one ends at k. */
  predicate Stretch(rule: Rule, h: seq<Poll>, j: nat, k: nat)
    requires j <= k < |h| && rule.Sustained?
  {
    && (forall i :: j <= i <= k ==> High(rule, h, i))
    && (forall i :: j < i <= k ==> Linked(h, i))
    && !(Linked(h, j) && High(rule, h, j - 1))
  }

  function Start(rule: Rule, h: seq<Poll>, k: nat): (j: nat)
    requires k < |h| && rule.Sustained? && High(rule, h, k)
    ensures j <= k && Stretch(rule, h, j, k)
    decreases k
  {
    if Linked(h, k) && High(rule, h, k - 1) then Start(rule, h, k - 1) else k
  }

  lemma {:induction false} StartIsTheStretch(rule: Rule, h: seq<Poll>, j: nat, k: nat)
    requires j <= k < |h| && rule.Sustained? && Stretch(rule, h, j, k)
    ensures Start(rule, h, k) == j
  {
    if j < k {
      assert Linked(h, k) && High(rule, h, k - 1);
      StartIsTheStretch(rule, h, j, k - 1);
    }
  }

  /** Where the span of a stretch is measured from: its first sample with a non-zero clock. */
  function Dated(h: seq<Poll>, j: nat, k: nat): real
    requires j <= k < |h|
    decreases k
  {
    if j == k then Clock(h[j].sample) else Redated(Dated(h, j, k - 1), Clock(h[k].sample))
  }

  /** The stretch from j is long enough at k. */
  predicate LongAt(rule: Rule, h: seq<Poll>, j: nat, k: nat)
    requires j <= k < |h| && rule.Sustained?
  {
    Long(rule, k - j + 1, Clock(h[k].sample) - Dated(h, j, k))
  }

  /** Different sustain rows of a gauge have different levels. */
  ghost predicate DistinctKeys(rules: seq<Rule>) {
    forall i, j ::
      0 <= i < j < |rules| && rules[i].Sustained? && rules[j].Sustained? && rules[i].gauge == rules[j].gauge ==>
        rules[i].level != rules[j].level
  }

  lemma {:induction false} StreakOfRow(rules: seq<Rule>, prev: Option<State>, cur: Sample, rule: Rule)
    requires DistinctKeys(rules) && rule in rules && rule.Sustained?
    ensures var key := (rule.gauge, rule.level); var all := Streaks(rules, prev, cur);
      && (key in all <==> rule.gauge in cur.gauges)
      && (key in all ==> all[key] == RowStreak(rule, prev, cur))
  {
    var init, last := rules[..|rules| - 1], rules[|rules| - 1];
    assert rules == init + [last];
    if rule == last {
      OtherRows(init, prev, cur, rule);
    } else {
      StreakOfRow(init, prev, cur, rule);
    }
  }

  lemma {:induction false} OtherRows(rules: seq<Rule>, prev: Option<State>, cur: Sample, rule: Rule)
    requires rule.Sustained?
    ensures (rule.gauge, rule.level) in Streaks(rules, prev, cur) ==> rule.gauge in cur.gauges
  {
    if rules != [] { OtherRows(rules[..|rules| - 1], prev, cur, rule); }
  }

  lemma DatedGrows(rule: Rule, h: seq<Poll>, j: nat, k: nat)
    requires j <= k < |h| && rule.Sustained? && Clock(h[j].sample) >= 0.0
    requires forall i :: j < i <= k ==> Linked(h, i)
    ensures Clock(h[j].sample) <= Dated(h, j, k) <= Clock(h[k].sample)
    ensures j < k && LongAt(rule, h, j, k - 1) ==> LongAt(rule, h, j, k)
  {
    if j < k {
      DatedGrows(rule, h, j, k - 1);
      assert Linked(h, k);
    }
  }

  /** What the persisted streak of a row means in terms of the samples alone. */
  ghost predicate StreakMeans(rule: Rule, h: seq<Poll>, k: nat, s: Streak)
    requires k < |h| && rule.Sustained?
  {
    && s.at == Clock(h[k].sample)
    && if High(rule, h, k)
       then var j := Start(rule, h, k);
            s.n == k - j + 1 && s.since == Dated(h, j, k) && s.fired == LongAt(rule, h, j, k)
       else s.n == 0 && !s.fired
  }

  ghost predicate Clocked(h: seq<Poll>) {
    forall k :: 0 <= k < |h| ==> Clock(h[k].sample) >= 0.0
  }

  /** The evaluator continues the streak it finds. */
  predicate Continues(rule: Rule, prev: Option<State>, cur: Sample)
    requires rule.Sustained?
  {
    var p := PrevStreak(prev, (rule.gauge, rule.level));
    !Cold(prev, cur) && !Restarted(prev, cur) && Clock(cur) - p.at <= SUSTAIN_MAX_GAP && p.n > 0
  }

  /** The persisted streak of the row is what the samples make it. */
  ghost predicate Tracks(rules: seq<Rule>, h: seq<Poll>, k: nat, rule: Rule)
    requires k < |h| && rule.Sustained?
  {
    var p := PrevStreak(Some(After(rules, h, k)), (rule.gauge, rule.level));
    if rule.gauge in h[k].sample.gauges then StreakMeans(rule, h, k, p) else p == NO_STREAK
  }

  lemma ContinuesIffLinked(rules: seq<Rule>, h: seq<Poll>, k: nat, rule: Rule)
    requires rule.Sustained? && k < |h| && (k > 0 ==> TracksUpTo(rules, h, k - 1, rule))
    ensures Continues(rule, Before(rules, h, k), h[k].sample) <==> Linked(h, k) && High(rule, h, k - 1)
  {
    if k > 0 {
      assert After(rules, h, k - 1).elapsed == Clock(h[k - 1].sample);
      assert After(rules, h, k - 1).invocation == h[k - 1].sample.invocation;
    }
  }

  lemma CountedMeans(rules: seq<Rule>, h: seq<Poll>, k: nat, rule: Rule)
    requires rule.Sustained? && rule.polls > 0 && k < |h| && Clocked(h) && rule.gauge in h[k].sample.gauges
    requires Continues(rule, Before(rules, h, k), h[k].sample) <==> Linked(h, k) && High(rule, h, k - 1)
    requires Linked(h, k) && High(rule, h, k - 1) ==>
      StreakMeans(rule, h, k - 1, PrevStreak(Before(rules, h, k), (rule.gauge, rule.level)))
    ensures StreakMeans(rule, h, k, RowStreak(rule, Before(rules, h, k), h[k].sample))
    ensures Fires(rule, Before(rules, h, k), h[k].sample) <==> Due(rule, h, k)
  {
    var prev := Before(rules, h, k);
    if High(rule, h, k) {
      DatedGrows(rule, h, Start(rule, h, k), k);
      if Continues(rule, prev, h[k].sample) {
        assert Start(rule, h, k) == Start(rule, h, k - 1);
      } else {
        assert Counted(rule, prev, h[k].sample) == Streak(1, Clock(h[k].sample), Clock(h[k].sample), false);
      }
    }
  }

  lemma {:induction false} StreakOfNext(rules: seq<Rule>, prev: Option<State>, cur: Sample, delivered: bool, rule: Rule)
    requires DistinctKeys(rules) && rule in rules && rule.Sustained?
    ensures PrevStreak(Some(Next(rules, prev, cur, delivered)), (rule.gauge, rule.level)) ==
      if rule.gauge in cur.gauges then RowStreak(rule, prev, cur) else NO_STREAK
  {
    StreakOfRow(rules, prev, cur, rule);
    assert Next(rules, prev, cur, delivered).streak == Streaks(rules, prev, cur);
  }

  /** The row fires at poll k, where its stretch has just become long enough. */
  ghost predicate Due(rule: Rule, h: seq<Poll>, k: nat)
    requires k < |h| && rule.Sustained?
  {
    High(rule, h, k) && var j := Start(rule, h, k); LongAt(rule, h, j, k) && (j == k || !LongAt(rule, h, j, k - 1))
  }

  ghost predicate TracksUpTo(rules: seq<Rule>, h: seq<Poll>, k: nat, rule: Rule)
    requires k < |h| && rule.Sustained?
    decreases k
  {
    Tracks(rules, h, k, rule) && (k > 0 ==> TracksUpTo(rules, h, k - 1, rule))
  }

  lemma FiresWhenDue(rules: seq<Rule>, h: seq<Poll>, k: nat, rule: Rule)
    requires rule.Sustained? && rule.polls > 0 && k < |h| && Clocked(h)
    requires k > 0 ==> TracksUpTo(rules, h, k - 1, rule)
    ensures Fires(rule, Before(rules, h, k), h[k].sample) <==> Due(rule, h, k)
    ensures rule.gauge in h[k].sample.gauges ==>
      StreakMeans(rule, h, k, RowStreak(rule, Before(rules, h, k), h[k].sample))
  {
    ContinuesIffLinked(rules, h, k, rule);
    if rule.gauge in h[k].sample.gauges { CountedMeans(rules, h, k, rule); }
  }

  lemma {:induction false} StreakTracksStretch(rules: seq<Rule>, h: seq<Poll>, k: nat, rule: Rule)
    requires DistinctKeys(rules) && rule in rules && rule.Sustained? && rule.polls > 0 && k < |h| && Clocked(h)
    ensures TracksUpTo(rules, h, k, rule)
    decreases k
  {
    if k > 0 { StreakTracksStretch(rules, h, k - 1, rule); }
    ContinuesIffLinked(rules, h, k, rule);
    if rule.gauge in h[k].sample.gauges { CountedMeans(rules, h, k, rule); }
    StreakOfNext(rules, Before(rules, h, k), h[k].sample, h[k].delivered, rule);
  }

  // ---------- SUSTAINED over histories ----------

  lemma {:induction false} HeldMeansFires(rules: seq<Rule>, prev: Option<State>, cur: Sample, rule: Rule)
    ensures (exists v :: v in RowsOut(rules, prev, cur) && v.Held? && v.rule == rule) <==>
      rule in rules && Fires(rule, prev, cur)
  {
    if rules != [] {
      var init, last := rules[..|rules| - 1], rules[|rules| - 1];
      assert rules == init + [last];
      HeldMeansFires(init, prev, cur, rule);
      var before, own := RowsOut(init, prev, cur), RowOut(last, prev, cur);
      assert own != [] ==> own == [own[0]];
      if v :| v in before && v.Held? && v.rule == rule { assert v in before + own; }
      if rule == last && Fires(rule, prev, cur) { assert own[0] in before + own; }
    }
  }

  /** Poll k reports the row as held. */
  ghost predicate Reports(rules: seq<Rule>, h: seq<Poll>, k: nat, rule: Rule)
    requires k < |h|
  {
    exists v :: v in Out(rules, Before(rules, h, k), h[k].sample) && v.Held? && v.rule == rule
  }

  /** A SUSTAINED row is reported exactly at the first poll of an unbroken stretch at which the stretch is
      long enough. */
  lemma {:induction false} ReportedExactly(rules: seq<Rule>, h: seq<Poll>, k: nat, rule: Rule)
    requires DistinctKeys(rules) && rule in rules && rule.Sustained? && rule.polls > 0 && k < |h| && Clocked(h)
    ensures Reports(rules, h, k, rule) <==>
      && High(rule, h, k)
      && var j := Start(rule, h, k); LongAt(rule, h, j, k) && forall i :: j <= i < k ==> !LongAt(rule, h, j, i)
  {
    ReportsWhenDue(rules, h, k, rule);
    DueIsFirst(rule, h, k);
  }

  lemma {:induction false} ReportsWhenDue(rules: seq<Rule>, h: seq<Poll>, k: nat, rule: Rule)
    requires DistinctKeys(rules) && rule in rules && rule.Sustained? && rule.polls > 0 && k < |h| && Clocked(h)
    ensures Reports(rules, h, k, rule) <==> Due(rule, h, k)
  {
    if k > 0 { StreakTracksStretch(rules, h, k - 1, rule); }
    FiresWhenDue(rules, h, k, rule);
    ReportsWhenFires(rules, h, k, rule);
  }

  lemma ReportsWhenFires(rules: seq<Rule>, h: seq<Poll>, k: nat, rule: Rule)
    requires k < |h|
    ensures Reports(rules, h, k, rule) <==> rule in rules && Fires(rule, Before(rules, h, k), h[k].sample)
  {
    var (prev, cur) := (Before(rules, h, k), h[k].sample);
    var (head, rows) := (Header(rules, prev, cur), RowsOut(rules, prev, cur));
    HeldMeansFires(rules, prev, cur, rule);
    assert forall v :: v in head ==> !v.Held?;
    assert forall v :: v in head + rows <==> v in head || v in rows;
  }

  lemma {:induction false} DueIsFirst(rule: Rule, h: seq<Poll>, k: nat)
    requires rule.Sustained? && k < |h| && Clocked(h)
    ensures Due(rule, h, k) <==>
      && High(rule, h, k)
      && var j := Start(rule, h, k); LongAt(rule, h, j, k) && forall i :: j <= i < k ==> !LongAt(rule, h, j, i)
  {
    if High(rule, h, k) {
      var j := Start(rule, h, k);
      forall i | j <= i < k && LongAt(rule, h, j, i) ensures LongAt(rule, h, j, k - 1) {
        LongStays(rule, h, j, i, k - 1);
      }
    }
  }

  lemma {:induction false} LongStays(rule: Rule, h: seq<Poll>, j: nat, i: nat, k: nat)
    requires j <= i <= k < |h| && rule.Sustained? && Clocked(h) && LongAt(rule, h, j, i)
    requires forall x :: j < x <= k ==> Linked(h, x)
    ensures LongAt(rule, h, j, k)
    decreases k - i
  {
    if i < k {
      LongStays(rule, h, j, i, k - 1);
      DatedGrows(rule, h, j, k);
    }
  }

  lemma {:induction false} HeldIsOwn(rules: seq<Rule>, prev: Option<State>, cur: Sample, v: Verdict)
    requires v.Held?
    ensures v in RowsOut(rules, prev, cur) <==> v.rule in rules && v in RowOut(v.rule, prev, cur)
  {
    if rules != [] {
      var init, last := rules[..|rules| - 1], rules[|rules| - 1];
      assert rules == init + [last];
      HeldIsOwn(init, prev, cur, v);
      assert v in RowsOut(rules, prev, cur) <==> v in RowsOut(init, prev, cur) || v in RowOut(last, prev, cur);
    }
  }

  lemma HeldInRows(rules: seq<Rule>, prev: Option<State>, cur: Sample, v: Verdict)
    requires v.Held?
    ensures v in Out(rules, prev, cur) <==> v in RowsOut(rules, prev, cur)
  {
    assert forall x :: x in Header(rules, prev, cur) ==> !x.Held?;
  }

  /** The row's report at poll k, from the samples alone. */
  function Holding(rule: Rule, h: seq<Poll>, k: nat): Verdict
    requires k < |h| && rule.Sustained? && High(rule, h, k)
  {
    var j := Start(rule, h, k);
    Held(rule, h[k].sample.gauges[rule.gauge], k - j + 1, (Clock(h[k].sample) - Dated(h, j, k)).Floor)
  }

  lemma RowOfStreak(rule: Rule, prev: Option<State>, h: seq<Poll>, k: nat)
    requires rule.Sustained? && k < |h| && rule.gauge in h[k].sample.gauges
    requires StreakMeans(rule, h, k, RowStreak(rule, prev, h[k].sample))
    requires Fires(rule, prev, h[k].sample) <==> Due(rule, h, k)
    ensures RowOut(rule, prev, h[k].sample) == if Due(rule, h, k) then [Holding(rule, h, k)] else []
  {
    var (c, s) := (Counted(rule, prev, h[k].sample), RowStreak(rule, prev, h[k].sample));
    assert s.n == c.n && s.since == c.since;
  }

  lemma FiringRow(rules: seq<Rule>, h: seq<Poll>, k: nat, rule: Rule)
    requires DistinctKeys(rules) && rule in rules && rule.Sustained? && rule.polls > 0 && k < |h| && Clocked(h)
    ensures RowOut(rule, Before(rules, h, k), h[k].sample) == if Due(rule, h, k) then [Holding(rule, h, k)] else []
  {
    if k > 0 { StreakTracksStretch(rules, h, k - 1, rule); }
    FiresWhenDue(rules, h, k, rule);
    if rule.gauge in h[k].sample.gauges { RowOfStreak(rule, Before(rules, h, k), h, k); }
  }

  /** What such a report says: the value, how many samples the stretch has, and how many whole seconds it spans;
      and the row says nothing else. */
  lemma {:induction false} HeldSays(rules: seq<Rule>, h: seq<Poll>, k: nat, rule: Rule, v: Verdict)
    requires DistinctKeys(rules) && rule in rules && rule.Sustained? && rule.polls > 0 && k < |h| && Clocked(h)
    requires v.Held? && v.rule == rule
    ensures v in Out(rules, Before(rules, h, k), h[k].sample) <==>
      Reports(rules, h, k, rule) && High(rule, h, k) && v == Holding(rule, h, k)
  {
    HeldInRows(rules, Before(rules, h, k), h[k].sample, v);
    HeldIsOwn(rules, Before(rules, h, k), h[k].sample, v);
    FiringRow(rules, h, k, rule);
    ReportsWhenDue(rules, h, k, rule);
    if Due(rule, h, k) { assert v in [Holding(rule, h, k)] <==> v == Holding(rule, h, k); }
  }

  /** So a report speaks of at least `polls` consecutive samples of one process, each at or above the level,
      with no hole between them, spanning the promised time. */
  lemma ReportIsSound(rules: seq<Rule>, h: seq<Poll>, k: nat, rule: Rule) returns (j: nat)
    requires DistinctKeys(rules) && rule in rules && rule.Sustained? && rule.polls > 0 && k < |h| && Clocked(h)
    requires forall i :: 0 <= i < |h| ==> h[i].sample.invocation != ""
    requires Reports(rules, h, k, rule)
    ensures j <= k && k - j + 1 >= rule.polls
    ensures forall i :: j <= i <= k ==> High(rule, h, i) && h[i].sample.invocation == h[k].sample.invocation
    ensures forall i :: j < i <= k ==> 0.0 <= Clock(h[i].sample) - Clock(h[i - 1].sample) <= 900.0
    ensures Clock(h[k].sample) - Clock(h[j].sample) >= (rule.polls as real - 1.0) * 240.0
  {
    ReportedExactly(rules, h, k, rule);
    j := Start(rule, h, k);
    DatedGrows(rule, h, j, k);
    forall i | j < i <= k ensures 0.0 <= Clock(h[i].sample) - Clock(h[i - 1].sample) <= 900.0 {
      assert Linked(h, i);
    }
    SameProcess(h, j, k);
  }

  lemma {:induction false} SameProcess(h: seq<Poll>, j: nat, k: nat)
    requires j <= k < |h| && (forall i :: j < i <= k ==> Linked(h, i))
    requires forall i :: 0 <= i < |h| ==> h[i].sample.invocation != ""
    ensures forall i :: j <= i <= k ==> h[i].sample.invocation == h[k].sample.invocation
  {
    if j < k {
      SameProcess(h, j, k - 1);
      assert Linked(h, k);
    }
  }

  /** Poll i goes on with what poll i - 1 observed. */
  predicate Joined(rule: Rule, h: seq<Poll>, i: int)
    requires rule.Sustained?
  {
    0 < i < |h| && Linked(h, i) && High(rule, h, i - 1)
  }

  /** No stretch is reported twice: between two reports of a row lies a restart, a dip, a poll without the
      gauge, a hole or a lost state file. */
  lemma ReportedOncePerStretch(rules: seq<Rule>, h: seq<Poll>, a: nat, b: nat, rule: Rule)
    requires DistinctKeys(rules) && rule in rules && rule.Sustained? && rule.polls > 0 && a < b < |h| && Clocked(h)
    requires forall i :: a < i <= b ==> Joined(rule, h, i)
    ensures !(Reports(rules, h, a, rule) && Reports(rules, h, b, rule))
  {
    ReportedExactly(rules, h, a, rule);
    ReportedExactly(rules, h, b, rule);
    assert Joined(rule, h, a + 1);
    if High(rule, h, b) { SameStart(rule, h, a, b); }
  }

  lemma {:induction false} SameStart(rule: Rule, h: seq<Poll>, a: nat, b: nat)
    requires rule.Sustained? && a <= b < |h| && High(rule, h, a) && High(rule, h, b)
    requires forall i :: a < i <= b ==> Joined(rule, h, i)
    ensures Start(rule, h, a) == Start(rule, h, b)
    decreases b - a
  {
    if a < b {
      assert Joined(rule, h, b);
      SameStart(rule, h, a, b - 1);
    }
  }

  // ---------- when a stretch is dated from ----------

  /** A linked stretch is dated from its first sample if and only if that reads a clock other than zero, or
      the clock still reads zero. */
  lemma {:induction false} DatedIff(h: seq<Poll>, j: nat, k: nat)
    requires j <= k < |h| && forall i :: j < i <= k ==> Linked(h, i)
    ensures Dated(h, j, k) == Clock(h[j].sample) <==> Clock(h[j].sample) != 0.0 || Clock(h[k].sample) == 0.0
    ensures Clock(h[j].sample) <= Clock(h[k].sample)
    decreases k
  {
    if j < k {
      DatedIff(h, j, k - 1);
      assert Linked(h, k);
    }
  }

  /** While the clock reads zero a stretch has no date; it is dated from the first sample that does not. */
  lemma {:induction false} ZeroDatedStretchIsLate(h: seq<Poll>, j: nat, m: nat, k: nat)
    requires j <= m <= k < |h| && Clock(h[m].sample) != 0.0
    requires forall i :: j <= i < m ==> Clock(h[i].sample) == 0.0
    ensures Dated(h, j, k) == Clock(h[m].sample)
    decreases k
  {
    if m < k {
      ZeroDatedStretchIsLate(h, j, m, k - 1);
    } else if j < k {
      StaysUndated(h, j, k - 1);
    }
  }

  lemma {:induction false} StaysUndated(h: seq<Poll>, j: nat, k: nat)
    requires j <= k < |h| && forall i :: j <= i <= k ==> Clock(h[i].sample) == 0.0
    ensures Dated(h, j, k) == 0.0
    decreases k
  {
    if j < k { StaysUndated(h, j, k - 1); }
  }

  /** What the rule promises: enough samples from j to k, and enough time since the first of them. */
  predicate LongSince(rule: Rule, h: seq<Poll>, j: nat, k: nat)
    requires j <= k < |h| && rule.Sustained?
  {
    k - j + 1 >= rule.polls && Clock(h[k].sample) - Clock(h[j].sample) >= (rule.polls as real - 1.0) * 240.0
  }

  /** The evaluator finds a linked stretch long enough if and only if it is, and, when it began at clock zero,
      is so without the time up to its first other clock. */
  lemma LongAtIff(rule: Rule, h: seq<Poll>, j: nat, k: nat)
    requires j <= k < |h| && rule.Sustained? && Clock(h[j].sample) >= 0.0
    requires forall i :: j < i <= k ==> Linked(h, i)
    ensures LongAt(rule, h, j, k) <==>
      && LongSince(rule, h, j, k)
      && (Clock(h[j].sample) == 0.0 < Clock(h[k].sample) ==>
           Clock(h[k].sample) - Dated(h, j, k) >= (rule.polls as real - 1.0) * 240.0)
  {
    DatedIff(h, j, k);
    DatedGrows(rule, h, j, k);
  }

  /** So a stretch that does not begin at clock zero is reported exactly when the rule promises it: at its
      first poll at which there are enough samples and enough time since its first one. */
  lemma {:induction false} ReportedOnTime(rules: seq<Rule>, h: seq<Poll>, j: nat, k: nat, rule: Rule)
    requires DistinctKeys(rules) && rule in rules && rule.Sustained? && rule.polls > 0 && j <= k < |h| && Clocked(h)
    requires Stretch(rule, h, j, k) && Clock(h[j].sample) != 0.0
    ensures Reports(rules, h, k, rule) <==>
      LongSince(rule, h, j, k) && forall i :: j <= i < k ==> !LongSince(rule, h, j, i)
  {
    StartIsTheStretch(rule, h, j, k);
    ReportedExactly(rules, h, k, rule);
    forall i | j <= i <= k ensures LongAt(rule, h, j, i) <==> LongSince(rule, h, j, i) { LongAtIff(rule, h, j, i); }
  }

  /** Of any stretch, the poll at which the rule promises a report gives it if and only if the stretch did
      not begin at clock zero, or is long enough without the time up to its first other clock. */
  lemma {:induction false} ReportedOnTimeIff(rules: seq<Rule>, h: seq<Poll>, j: nat, k: nat, rule: Rule)
    requires DistinctKeys(rules) && rule in rules && rule.Sustained? && rule.polls > 0 && j <= k < |h| && Clocked(h)
    requires Stretch(rule, h, j, k) && LongSince(rule, h, j, k)
    requires forall i :: j <= i < k ==> !LongSince(rule, h, j, i)
    ensures Reports(rules, h, k, rule) <==>
      || Clock(h[j].sample) != 0.0 || Clock(h[k].sample) == 0.0
      || Clock(h[k].sample) - Dated(h, j, k) >= (rule.polls as real - 1.0) * 240.0
  {
    StartIsTheStretch(rule, h, j, k);
    ReportedExactly(rules, h, k, rule);
    DatedIff(h, j, k);
    forall i | j <= i <= k ensures LongAt(rule, h, j, i) ==> LongSince(rule, h, j, i) { LongAtIff(rule, h, j, i); }
    LongAtIff(rule, h, j, k);
  }

  lemma {:induction false} HighFrom(rule: Rule, h: seq<Poll>, k: nat)
    requires k < |h| && rule.Sustained? && High(rule, h, 0)
    requires forall i :: 0 < i <= k ==> Linked(h, i) && High(rule, h, i)
    ensures High(rule, h, k) && Start(rule, h, k) == 0
    decreases k
  {
    if k > 0 { HighFrom(rule, h, k - 1); }
  }

  /** Polls every five minutes from clock zero on, of one process whose gauge stays at two. */
  function Steady(): seq<Poll> {
    seq(4, k requires 0 <= k < 4 => Poll(false, Sample(map["g" := 2], Some(300.0 * k as real), "p"), false))
  }

  const THREE := Sustained("g", 2, 3)

  lemma SteadyIs(k: nat)
    requires k < 4
    ensures Clock(Steady()[k].sample) == 300.0 * k as real && High(THREE, Steady(), k)
    ensures k > 0 ==> Linked(Steady(), k)
  {}

  lemma SteadyLengths()
    ensures !LongAt(THREE, Steady(), 0, 0) && !LongAt(THREE, Steady(), 0, 1) && !LongAt(THREE, Steady(), 0, 2)
    ensures LongAt(THREE, Steady(), 0, 3)
  {
    var h := Steady();
    SteadyIs(0);
    SteadyIs(1);
    SteadyIs(2);
    SteadyIs(3);
    ZeroDatedStretchIsLate(h, 0, 1, 1);
    ZeroDatedStretchIsLate(h, 0, 1, 2);
    ZeroDatedStretchIsLate(h, 0, 1, 3);
  }

  lemma SteadyStart(k: nat)
    requires k < 4
    ensures High(THREE, Steady(), k) && Start(THREE, Steady(), k) == 0
  {
    forall i | 0 <= i < 4 ensures High(THREE, Steady(), i) && (i > 0 ==> Linked(Steady(), i)) { SteadyIs(i); }
    HighFrom(THREE, Steady(), k);
  }

  /** A rule of three polls reports such a stretch at the fourth. */
  lemma {:induction false} ZeroDatedExample()
    ensures !Reports([THREE], Steady(), 2, THREE) && Reports([THREE], Steady(), 3, THREE)
  {
    SteadyLengths();
    SteadyStart(2);
    SteadyStart(3);
    ReportedExactly([THREE], Steady(), 2, THREE);
    ReportedExactly([THREE], Steady(), 3, THREE);
  }

  // ---------- RISE over histories ----------

  /** Poll k is seen to be of another process than poll k - 1. */
  predicate Died(h: seq<Poll>, k: nat)
    requires 0 < k < |h|
  {
    || (h[k].sample.invocation != "" && h[k - 1].sample.invocation != ""
      && h[k].sample.invocation != h[k - 1].sample.invocation)
    || Clock(h[k].sample) < Clock(h[k - 1].sample)
  }

  function ReportedDelta(vs: seq<Verdict>): int {
    if vs != [] && vs[0].Risen? then vs[0].delta else 0
  }

  /** The increases reported for a row over the polls up to k. */
  function ReportedTotal(rules: seq<Rule>, h: seq<Poll>, k: nat, rule: Rule): int
    requires k < |h|
    decreases k
  {
    ReportedDelta(RowOut(rule, Before(rules, h, k), h[k].sample))
    + if k == 0 then 0 else ReportedTotal(rules, h, k - 1, rule)
  }

  /** The poll seeds: it has no state to compare with, or no clock to tell a restart by. */
  predicate Seeds(h: seq<Poll>, k: nat)
    requires k < |h|
  {
    k == 0 || h[k].lost || h[k].sample.elapsed.None?
  }

  predicate Sees(h: seq<Poll>, k: nat, gauge: string)
    requires k < |h|
  {
    gauge in h[k].sample.gauges
  }

  /** The gauge is a count. */
  predicate Counts(h: seq<Poll>, gauge: string) {
    forall k :: 0 <= k < |h| && Sees(h, k, gauge) ==> h[k].sample.gauges[gauge] >= 0
  }

  /** What is known of the process's count before poll k looks: nothing when it seeds, zero when it is seen to
      be a new process, and else what the last poll that saw the gauge told. */
  function LastKnown(h: seq<Poll>, k: nat, gauge: string): Option<int>
    requires k < |h|
    decreases k, 0
  {
    if Seeds(h, k) then None else if Died(h, k) then Some(0) else Known(h, k - 1, gauge)
  }

  function Known(h: seq<Poll>, k: nat, gauge: string): Option<int>
    requires k < |h|
    decreases k, 1
  {
    if Sees(h, k, gauge) then Some(h[k].sample.gauges[gauge]) else LastKnown(h, k, gauge)
  }

  function OrZero(n: Option<int>): int {
    if n.Some? then n.value else 0
  }

  /** The counts at which processes were last known, up to the current one. */
  function LifeTotals(h: seq<Poll>, k: nat, gauge: string): int
    requires k < |h|
    decreases k
  {
    if k == 0 then OrZero(Known(h, 0, gauge))
    else
      OrZero(Known(h, k, gauge)) + LifeTotals(h, k - 1, gauge)
      - if Seeds(h, k) || Died(h, k) then 0 else OrZero(Known(h, k - 1, gauge))
  }

  /** The counts at which the gauge was first seen, without anything being known of its process. */
  function Seeded(h: seq<Poll>, k: nat, gauge: string): int
    requires k < |h|
    decreases k
  {
    (if Sees(h, k, gauge) && LastKnown(h, k, gauge).None? then h[k].sample.gauges[gauge] else 0)
    + if k == 0 then 0 else Seeded(h, k - 1, gauge)
  }

  /** What poll k reports beyond the growth: the whole known count again when the poll before did not carry
      the gauge, and the depth of a fall within a process. */
  function Excess(h: seq<Poll>, k: nat, gauge: string): int
    requires k < |h|
  {
    if Seeds(h, k) || Died(h, k) || !Sees(h, k, gauge) then 0
    else
      var v := h[k].sample.gauges[gauge];
      if Sees(h, k - 1, gauge)
      then (if v < h[k - 1].sample.gauges[gauge] then h[k - 1].sample.gauges[gauge] - v else 0)
      else if Known(h, k - 1, gauge).Some? then Known(h, k - 1, gauge).value else v
  }

  function ExcessTotal(h: seq<Poll>, k: nat, gauge: string): int
    requires k < |h|
    decreases k
  {
    Excess(h, k, gauge) + if k == 0 then 0 else ExcessTotal(h, k - 1, gauge)
  }

  lemma RestartSeen(rules: seq<Rule>, h: seq<Poll>, k: nat)
    requires 0 < k < |h| && !h[k].lost && h[k].sample.elapsed.Some?
    ensures Restarted(Before(rules, h, k), h[k].sample) <==> Died(h, k)
    ensures !Cold(Before(rules, h, k), h[k].sample)
  {
    assert After(rules, h, k - 1).elapsed == Clock(h[k - 1].sample);
    assert After(rules, h, k - 1).invocation == h[k - 1].sample.invocation;
  }

  /** The increase that poll k shows for a gauge, in terms of the samples. */
  function Increase(h: seq<Poll>, k: nat, gauge: string): int
    requires k < |h|
  {
    if Seeds(h, k) || !Sees(h, k, gauge) then 0
    else
      var v := h[k].sample.gauges[gauge];
      var base := if Died(h, k) || !Sees(h, k - 1, gauge) then 0 else h[k - 1].sample.gauges[gauge];
      if base < v then v - base else 0
  }

  lemma BaselineAt(rules: seq<Rule>, cur: Sample, rule: Rule)
    requires rule in rules
    ensures rule.gauge in Baseline(rules, cur) <==> rule.gauge in cur.gauges
    ensures rule.gauge in cur.gauges ==> Baseline(rules, cur)[rule.gauge] == cur.gauges[rule.gauge]
  {}

  /** A RISE row compares with the sample before, of the same process. */
  lemma DeltaIs(rules: seq<Rule>, h: seq<Poll>, k: nat, rule: Rule)
    requires k < |h| && rule in rules && rule.Rise? && !Seeds(h, k) && Sees(h, k, rule.gauge)
    ensures Delta(rule.gauge, Before(rules, h, k), h[k].sample) == Increase(h, k, rule.gauge)
  {
    RestartSeen(rules, h, k);
    BaselineAt(rules, h[k - 1].sample, rule);
    assert After(rules, h, k - 1).base == Baseline(rules, h[k - 1].sample);
  }

  /** What a RISE row says at poll k. */
  function Rising(h: seq<Poll>, k: nat, gauge: string, threshold: int): seq<Verdict>
    requires k < |h|
  {
    if Seeds(h, k) || !Sees(h, k, gauge) || Increase(h, k, gauge) <= threshold then []
    else [Risen(Rise(gauge, threshold), Increase(h, k, gauge), h[k].sample.gauges[gauge], Died(h, k))]
  }

  lemma RowOutIs(rules: seq<Rule>, h: seq<Poll>, k: nat, gauge: string, threshold: int)
    requires k < |h| && Rise(gauge, threshold) in rules
    ensures RowOut(Rise(gauge, threshold), Before(rules, h, k), h[k].sample) == Rising(h, k, gauge, threshold)
  {
    if !Seeds(h, k) {
      RestartSeen(rules, h, k);
      if Sees(h, k, gauge) { DeltaIs(rules, h, k, Rise(gauge, threshold)); }
    }
  }

  lemma {:induction false} RisenIsOwn(rules: seq<Rule>, prev: Option<State>, cur: Sample, v: Verdict)
    requires v.Risen?
    ensures v in RowsOut(rules, prev, cur) <==> v.rule in rules && v in RowOut(v.rule, prev, cur)
  {
    if rules != [] {
      var init, last := rules[..|rules| - 1], rules[|rules| - 1];
      assert rules == init + [last];
      RisenIsOwn(init, prev, cur, v);
      assert v in RowsOut(rules, prev, cur) <==> v in RowsOut(init, prev, cur) || v in RowOut(last, prev, cur);
    }
  }

  lemma RisenInRows(rules: seq<Rule>, prev: Option<State>, cur: Sample, v: Verdict)
    requires v.Risen?
    ensures v in Out(rules, prev, cur) <==> v in RowsOut(rules, prev, cur)
  {
    assert forall x :: x in Header(rules, prev, cur) ==> !x.Risen?;
  }

  /** Over any history a RISE row is reported at poll k if and only if the poll does not seed, carries the gauge,
      and shows an increase above the row's threshold; the report carries that increase, the value and whether
      the process restarted, and nothing else. */
  lemma RiseReportedExactly(rules: seq<Rule>, h: seq<Poll>, k: nat, gauge: string, threshold: int, v: Verdict)
    requires k < |h| && Rise(gauge, threshold) in rules && v.Risen? && v.rule == Rise(gauge, threshold)
    ensures v in Out(rules, Before(rules, h, k), h[k].sample) <==>
      && !Seeds(h, k) && Sees(h, k, gauge) && Increase(h, k, gauge) > threshold
      && v == Risen(Rise(gauge, threshold), Increase(h, k, gauge), h[k].sample.gauges[gauge], Died(h, k))
  {
    RisenInRows(rules, Before(rules, h, k), h[k].sample, v);
    RisenIsOwn(rules, Before(rules, h, k), h[k].sample, v);
    RowOutIs(rules, h, k, gauge, threshold);
    assert v in Rising(h, k, gauge, threshold) <==>
      Rising(h, k, gauge, threshold) != [] && v == Rising(h, k, gauge, threshold)[0];
  }

  /** The increases up to poll k that stayed within the threshold. */
  function SilentTotal(h: seq<Poll>, k: nat, gauge: string, threshold: int): int
    requires k < |h|
    decreases k
  {
    (if Increase(h, k, gauge) <= threshold then Increase(h, k, gauge) else 0)
    + if k == 0 then 0 else SilentTotal(h, k - 1, gauge, threshold)
  }

  lemma {:induction false} NothingSilentAtZero(h: seq<Poll>, k: nat, gauge: string)
    requires k < |h|
    ensures SilentTotal(h, k, gauge, 0) == 0
    decreases k
  {
    if k > 0 { NothingSilentAtZero(h, k - 1, gauge); }
  }

  lemma KnownCounts(h: seq<Poll>, k: nat, gauge: string)
    requires k < |h| && Counts(h, gauge)
    ensures OrZero(Known(h, k, gauge)) >= 0
    decreases k
  {
    if k > 0 { KnownCounts(h, k - 1, gauge); }
  }

  /** What one poll reports is what the known totals grow by, less what it seeds, plus its excess. */
  lemma ReportedStep(h: seq<Poll>, k: nat, gauge: string)
    requires 0 < k < |h| && Counts(h, gauge)
    ensures Increase(h, k, gauge) ==
      (LifeTotals(h, k, gauge) - LifeTotals(h, k - 1, gauge)) - (Seeded(h, k, gauge) - Seeded(h, k - 1, gauge))
        + Excess(h, k, gauge)
    ensures Excess(h, k, gauge) >= 0
  {
    KnownCounts(h, k, gauge);
    KnownCounts(h, k - 1, gauge);
    if !Seeds(h, k) && !Died(h, k) {
      assert LastKnown(h, k, gauge) == Known(h, k - 1, gauge);
    }
    if Sees(h, k, gauge) {
      assert Known(h, k, gauge) == Some(h[k].sample.gauges[gauge]);
    }
    if Sees(h, k - 1, gauge) {
      assert Known(h, k - 1, gauge) == Some(h[k - 1].sample.gauges[gauge]);
    }
  }

  lemma TotalStep(rules: seq<Rule>, h: seq<Poll>, k: nat, gauge: string, t: int)
    requires k < |h| && Counts(h, gauge) && Rise(gauge, t) in rules
    ensures ReportedTotal(rules, h, k, Rise(gauge, t)) + SilentTotal(h, k, gauge, t) ==
      Increase(h, k, gauge)
      + if k == 0 then 0 else ReportedTotal(rules, h, k - 1, Rise(gauge, t)) + SilentTotal(h, k - 1, gauge, t)
  {
    RowOutIs(rules, h, k, gauge, t);
  }

  lemma FirstPollSeeds(h: seq<Poll>, gauge: string)
    requires |h| > 0
    ensures Increase(h, 0, gauge) == 0 && LifeTotals(h, 0, gauge) == Seeded(h, 0, gauge)
    ensures ExcessTotal(h, 0, gauge) == 0
  {}

  /** The reported increases telescope, for any threshold and any history: across restarts, polls without the
      gauge, lost state and missing clocks, together with those that stayed within the threshold they are what
      every process was seen to count since it was seeded, plus the excess of falls and of polls after one
      without the gauge. At threshold zero none stays silent. */
  lemma {:induction false} IncreasesTelescope(rules: seq<Rule>, h: seq<Poll>, k: nat, gauge: string, t: int)
    requires k < |h| && Counts(h, gauge) && Rise(gauge, t) in rules
    ensures ReportedTotal(rules, h, k, Rise(gauge, t)) + SilentTotal(h, k, gauge, t) ==
      LifeTotals(h, k, gauge) - Seeded(h, k, gauge) + ExcessTotal(h, k, gauge)
    ensures t == 0 ==> SilentTotal(h, k, gauge, t) == 0
    decreases k
  {
    TotalStep(rules, h, k, gauge, t);
    NothingSilentAtZero(h, k, gauge);
    if k == 0 {
      FirstPollSeeds(h, gauge);
    } else {
      IncreasesTelescope(rules, h, k - 1, gauge, t);
      ReportedStep(h, k, gauge);
    }
  }

  /** Poll i reports no more than growth: it does not fall within a process, and if the poll before did not
      carry the gauge, there was nothing counted yet, or, never seen before, there is nothing now. */
  predicate Exact(h: seq<Poll>, i: nat, gauge: string)
    requires i < |h|
  {
    !Seeds(h, i) && !Died(h, i) && Sees(h, i, gauge) ==>
      var v := h[i].sample.gauges[gauge];
      if Sees(h, i - 1, gauge) then h[i - 1].sample.gauges[gauge] <= v
      else if Known(h, i - 1, gauge).Some? then Known(h, i - 1, gauge).value == 0
      else v == 0
  }

  /** So the reports are exact if and only if every poll is. */
  lemma {:induction false} ReportsExactlyIff(h: seq<Poll>, k: nat, gauge: string)
    requires k < |h| && Counts(h, gauge)
    ensures ExcessTotal(h, k, gauge) >= 0
    ensures ExcessTotal(h, k, gauge) == 0 <==> forall i :: 0 <= i <= k ==> Exact(h, i, gauge)
    decreases k
  {
    if k > 0 {
      ReportsExactlyIff(h, k - 1, gauge);
      ReportedStep(h, k, gauge);
    }
    ExactIffNoExcess(h, k, gauge);
  }

  lemma ExactIffNoExcess(h: seq<Poll>, k: nat, gauge: string)
    requires k < |h| && Counts(h, gauge)
    ensures Excess(h, k, gauge) == 0 <==> Exact(h, k, gauge)
    ensures k == 0 ==> Excess(h, k, gauge) == 0
  {}

  /** A poll without the gauge forgets its baseline: the next one reports the whole value again, if that is
      above the threshold. */
  lemma MissedPollReportsAnew(rules: seq<Rule>, h: seq<Poll>, k: nat, gauge: string, t: int)
    requires 0 < k < |h| && !h[k].lost && h[k].sample.elapsed.Some? && t >= 0
    requires gauge !in h[k - 1].sample.gauges && gauge in h[k].sample.gauges && h[k].sample.gauges[gauge] > t
    ensures ReportedDelta(RowOut(Rise(gauge, t), Before(rules, h, k), h[k].sample)) == h[k].sample.gauges[gauge]
  {
    assert gauge !in After(rules, h, k - 1).base;
    RestartSeen(rules, h, k);
  }

  // ---------- undelivered verdicts ----------

  function Elements(vs: seq<Verdict>): set<Verdict> {
    set v | v in vs
  }

  predicate NoRepeats(vs: seq<Verdict>) {
    forall i, j :: 0 <= i < j < |vs| ==> vs[i] != vs[j]
  }

  lemma {:induction false} DedupeIsSet(vs: seq<Verdict>)
    ensures Elements(Dedupe(vs)) == Elements(vs) && NoRepeats(Dedupe(vs))
  {
    if vs != [] {
      var init, last := vs[..|vs| - 1], vs[|vs| - 1];
      var before := Dedupe(init);
      assert vs == init + [last];
      DedupeIsSet(init);
      assert last in before <==> last in Elements(before);
      assert Elements(before + [last]) == Elements(before) + {last};
      assert Elements(vs) == Elements(init) + {last};
    }
  }

  lemma {:induction false} DistinctSize(vs: seq<Verdict>)
    requires NoRepeats(vs)
    ensures |Elements(vs)| == |vs|
  {
    if vs != [] {
      var init, last := vs[..|vs| - 1], vs[|vs| - 1];
      DistinctSize(init);
      assert vs == init + [last];
      assert Elements(vs) == Elements(init) + {last};
    }
  }

  lemma SubsetSize<T>(a: set<T>, b: set<T>)
    requires a <= b
    ensures |a| <= |b| && (|a| == |b| ==> a == b)
  {
    assert |b| == |a| + |b - a| by { assert b == a + (b - a); }
  }

  /** What the carry says about the pending verdicts. */
  ghost predicate Carries(carry: seq<Verdict>, pending: set<Verdict>) {
    && |carry| <= 12 && NoRepeats(carry)
    && Elements(carry) <= pending
    && (Elements(carry) == pending <==> |pending| <= 12)
  }

  lemma {:induction false} CarryStep(carry: seq<Verdict>, pending: set<Verdict>, out: seq<Verdict>)
    requires Carries(carry, pending)
    ensures Carries(Newest(Dedupe(carry + out)), pending + Elements(out))
  {
    var all := Dedupe(carry + out);
    var next, grown := Newest(all), pending + Elements(out);
    DedupeIsSet(carry + out);
    assert Elements(carry + out) == Elements(carry) + Elements(out);
    DistinctSize(all);
    DistinctSize(next);
    SubsetSize(pending, grown);
    assert Elements(next) <= Elements(all);
    SubsetSize(Elements(next), grown);
    if |pending| <= 12 { assert Elements(all) == grown; }
  }

  /** Deduplicating more keeps what was kept before, in its order. */
  lemma {:induction false} DedupeKeepsOrder(vs: seq<Verdict>, n: nat)
    requires n <= |vs|
    ensures Dedupe(vs[..n]) <= Dedupe(vs)
  {
    if n < |vs| {
      assert vs[..|vs| - 1][..n] == vs[..n];
      DedupeKeepsOrder(vs[..|vs| - 1], n);
    } else {
      assert vs[..n] == vs;
    }
  }

  /** What an undelivered poll carries on: the latest twelve of all, in the order in which they were first said, what
      was carried before this poll's own. */
  lemma CarryIsNewest(rules: seq<Rule>, prev: Option<State>, cur: Sample, n: nat) returns (all: seq<Verdict>)
    requires prev.Some? ==> |prev.value.carry| <= 12
    ensures var (carry, said) := (Next(rules, prev, cur, false).carry,
                                  (if prev.Some? then prev.value.carry else []) + Out(rules, prev, cur));
      && NoRepeats(all) && Elements(all) == Elements(said) && (n <= |said| ==> Dedupe(said[..n]) <= all)
      && |carry| <= 12 && |carry| <= |all| && carry == all[|all| - |carry|..] && (|carry| == 12 || carry == all)
  {
    var said := Carried(prev) + Out(rules, prev, cur);
    all := Dedupe(said);
    DedupeIsSet(said);
    if n <= |said| { DedupeKeepsOrder(said, n); }
    CarryOfNext(rules, prev, cur);
  }

  /** Verdicts reported since the last alert that went out, or since the state file was lost. */
  function Pending(rules: seq<Rule>, h: seq<Poll>, k: nat): set<Verdict>
    requires k < |h|
    decreases k
  {
    if h[k].delivered then {}
    else
      Elements(Out(rules, Before(rules, h, k), h[k].sample))
      + if k == 0 || h[k].lost then {} else Pending(rules, h, k - 1)
  }

  lemma PendingStep(rules: seq<Rule>, h: seq<Poll>, k: nat)
    requires k < |h| && !h[k].delivered
    ensures Pending(rules, h, k) ==
      (if Before(rules, h, k).None? then {} else Pending(rules, h, k - 1))
        + Elements(Out(rules, Before(rules, h, k), h[k].sample))
  {}

  lemma CarryOfNext(rules: seq<Rule>, prev: Option<State>, cur: Sample)
    ensures Next(rules, prev, cur, false).carry == Newest(Dedupe(Carried(prev) + Out(rules, prev, cur)))
  {}

  ghost predicate CarriesUpTo(rules: seq<Rule>, h: seq<Poll>, k: nat)
    requires k < |h|
    decreases k
  {
    Carries(After(rules, h, k).carry, Pending(rules, h, k)) && (k > 0 ==> CarriesUpTo(rules, h, k - 1))
  }

  lemma CarriesOn(rules: seq<Rule>, h: seq<Poll>, k: nat)
    requires k < |h| && (k > 0 ==> CarriesUpTo(rules, h, k - 1))
    ensures CarriesUpTo(rules, h, k)
  {
    if h[k].delivered {
      assert After(rules, h, k).carry == [];
    } else {
      var prev := Before(rules, h, k);
      var pending := if prev.None? then {} else Pending(rules, h, k - 1);
      PendingStep(rules, h, k);
      CarryOfNext(rules, prev, h[k].sample);
      CarryStep(Carried(prev), pending, Out(rules, prev, h[k].sample));
    }
  }

  lemma {:induction false} CarriesRun(rules: seq<Rule>, h: seq<Poll>, k: nat)
    requires k < |h|
    ensures CarriesUpTo(rules, h, k)
    decreases k
  {
    if k > 0 { CarriesRun(rules, h, k - 1); }
    CarriesOn(rules, h, k);
  }

  /** After every poll of any history the carry is free of duplicates, at most twelve long, and holds pending
      verdicts only; it holds all of them exactly when no more than twelve are pending. */
  lemma {:induction false} NoVerdictIsLost(rules: seq<Rule>, h: seq<Poll>, k: nat)
    requires k < |h|
    ensures var (carry, pending) := (After(rules, h, k).carry, Pending(rules, h, k));
      && |carry| <= 12 && NoRepeats(carry) && Elements(carry) <= pending
      && (Elements(carry) == pending <==> |pending| <= 12)
  {
    CarriesRun(rules, h, k);
  }

  // ---------- gauges that disappear ----------

  lemma SeenKnows(rules: seq<Rule>, h: seq<Poll>, k: nat, name: string)
    requires k < |h| && name in Names(rules)
    ensures name in After(rules, h, k).absent <==> !Present(h[k].sample, name)
    ensures Present(h[k].sample, name) ==> name in After(rules, h, k).seen
  {}

  function Gone(rules: seq<Rule>, prev: Option<State>, cur: Sample): set<string> {
    Absent(rules, cur) - if prev.Some? then prev.value.absent else {}
  }

  function Seen(prev: Option<State>): set<string> {
    if prev.Some? then prev.value.seen else {}
  }

  /** The report pages the name as vanished. */
  ghost predicate Pages(out: seq<Verdict>, name: string) {
    exists v :: v in out && v.Vanished? && name in v.names
  }

  /** The report notes the name as never seen. */
  ghost predicate Notes(out: seq<Verdict>, name: string) {
    exists v :: v in out && v.NeverSeen? && name in v.names
  }

  lemma HeaderPages(rules: seq<Rule>, prev: Option<State>, cur: Sample, name: string)
    ensures Pages(Header(rules, prev, cur), name) <==> name in Gone(rules, prev, cur) && name in Seen(prev)
  {
    var gone, seen, head := Gone(rules, prev, cur), Seen(prev), Header(rules, prev, cur);
    assert forall v :: v in head && v.Vanished? ==> v.names == gone * seen;
    if name in gone * seen { assert head[0] == Vanished(gone * seen) && head[0] in head; }
  }

  lemma HeaderNotes(rules: seq<Rule>, prev: Option<State>, cur: Sample, name: string)
    ensures Notes(Header(rules, prev, cur), name) <==> name in Gone(rules, prev, cur) && name !in Seen(prev)
  {
    var gone, seen, head := Gone(rules, prev, cur), Seen(prev), Header(rules, prev, cur);
    assert forall v :: v in head && v.NeverSeen? ==> v.names == gone - seen;
    if name in gone - seen {
      var i := if gone * seen != {} then 1 else 0;
      assert head[i] == NeverSeen(gone - seen) && head[i] in head;
    }
  }

  lemma OnlyTheHeader(head: seq<Verdict>, rows: seq<Verdict>, name: string)
    requires forall v :: v in rows ==> v.Held? || v.Risen?
    ensures Pages(head + rows, name) <==> Pages(head, name)
    ensures Notes(head + rows, name) <==> Notes(head, name)
  {
    assert forall v :: v in head + rows <==> v in head || v in rows;
  }

  lemma GoneIff(rules: seq<Rule>, h: seq<Poll>, k: nat, name: string)
    requires k < |h| && name in Names(rules)
    ensures var (prev, cur) := (Before(rules, h, k), h[k].sample);
      && (name in Gone(rules, prev, cur) && name in Seen(prev) <==>
           k > 0 && !h[k].lost && Present(h[k - 1].sample, name) && !Present(cur, name))
      && (name in Gone(rules, prev, cur) && name !in Seen(prev) <==> (k == 0 || h[k].lost) && !Present(cur, name))
  {
    if k > 0 { SeenKnows(rules, h, k - 1, name); }
    assert name in Absent(rules, h[k].sample) <==> !Present(h[k].sample, name);
  }

  /** A watched name is paged as vanished exactly when the previous poll had it and this one does not, and
      noted as never seen only on a poll that starts from no state. */
  lemma VanishedExactly(rules: seq<Rule>, h: seq<Poll>, k: nat, name: string)
    requires k < |h| && name in Names(rules)
    ensures var out := Out(rules, Before(rules, h, k), h[k].sample);
      && (Pages(out, name) <==> k > 0 && !h[k].lost && Present(h[k - 1].sample, name) && !Present(h[k].sample, name))
      && (Notes(out, name) <==> (k == 0 || h[k].lost) && !Present(h[k].sample, name))
  {
    var (prev, cur) := (Before(rules, h, k), h[k].sample);
    RowsReportGauges(rules, prev, cur);
    OnlyTheHeader(Header(rules, prev, cur), RowsOut(rules, prev, cur), name);
    HeaderPages(rules, prev, cur, name);
    HeaderNotes(rules, prev, cur, name);
    GoneIff(rules, h, k, name);
  }

  lemma {:induction false} RowsReportGauges(rules: seq<Rule>, prev: Option<State>, cur: Sample)
    ensures forall v :: v in RowsOut(rules, prev, cur) ==> v.Held? || v.Risen?
  {
    if rules != [] { RowsReportGauges(rules[..|rules| - 1], prev, cur); }
  }

  /** The report says that the process restarted exactly when the poll compares with an earlier one and the samples
      of the two show another process. */
  lemma RestartReportedExactly(rules: seq<Rule>, h: seq<Poll>, k: nat)
    requires k < |h|
    ensures Restart in Out(rules, Before(rules, h, k), h[k].sample) <==> !Seeds(h, k) && Died(h, k)
  {
    var (prev, cur) := (Before(rules, h, k), h[k].sample);
    var (head, rows) := (Header(rules, prev, cur), RowsOut(rules, prev, cur));
    RowsReportGauges(rules, prev, cur);
    assert Restart in head + rows <==> Restart in head || Restart in rows;
    if !Seeds(h, k) { RestartSeen(rules, h, k); }
    assert Restart in head <==> Restarted(prev, cur) by {
      if Restarted(prev, cur) { assert head[|head| - 1] == Restart; }
    }
  }
}
