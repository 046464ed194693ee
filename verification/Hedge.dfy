/** Exactly-once hedging. Several detectors learn of the same fill (scripts/pmus_maker_probe.py: private
    order stream, polls and delayed confirms, position reconciliation; src/arbbot/exec/main.py: stream and
    poll around _process_fill), each with stale, failed or repeated reads of the venue's cumulative count. */
module Hedge {
  import opened Core

  function Sum(s: seq<int>): int {
    if s == [] then 0 else Sum(s[..|s| - 1]) + s[|s| - 1]
  }

  lemma SumAppend(s: seq<int>, x: int)
    ensures Sum(s + [x]) == Sum(s) + x
  {
    assert (s + [x])[..|s|] == s;
  }

  // ---------- the maker orders of one pair of the probe ----------

  /** filled is the venue's truth. cum is what the probe has recognized, dispatched the quantities it has
      passed to hedge. A dispatched hedge is pending until it books what it hedged; the rest remains to be
      unwound, then has an unwind order at the venue, which may fill, or is left naked because none was sent. */
  datatype Order = Order(buy: bool, filled: int, cum: int, dispatched: seq<int>, pending: int, booked: int,
                         remainder: int, unwinding: int, unwound: int, naked: int)

  /** A coroutine between two awaits. The answer of a read is fixed when the venue gives it, which may be
      long before the coroutine runs again. Reconciliation goes from the position read through the orders it
      looks at, hedging what they newly report, to the comparison; readAt and ownAt are when its position was
      answered and when it last took hedged_net. */
  datatype Task =
    | AskingFilled(oid: string)
    | FilledAnswered(oid: string, answer: Option<int>)
    | AskingOrder(oid: string, got: int)
    | OrderAnswered(oid: string, got: int, answer: Option<int>)
    | AskingPosition
    | PositionAnswered(answer: Option<int>, readAt: nat)
    | Scanning(net: int, own: int, readAt: nat, ownAt: nat)
    | ReconAsking(net: int, own: int, readAt: nat, ownAt: nat, oid: string)
    | ReconAnswered(net: int, own: int, readAt: nat, ownAt: nat, oid: string, answer: Option<int>)
    | ReconHedging(net: int, own: int, readAt: nat, ownAt: nat)

  /** now counts the events so far. pos is the venue's position in the pair, foreign what others on the
      account and the flatten orders contributed to it; hedgedNet, latched and flattens (the quantities of the
      flatten orders sent) are the probe's. */
  datatype State = State(orders: map<string, Order>, tasks: map<nat, Task>, now: nat, pos: int, foreign: int,
                         hedgedNet: int, latched: bool, flattens: seq<int>)

  datatype Event =
    | Place(oid: string, buy: bool)
    | Fill(oid: string, n: int)
    | OtherFill(n: int)
    | StartSettle(task: nat, oid: string)
    | StartRecon(task: nat)
    | Answer(task: nat, value: Option<int>)
    | Resume(task: nat)
    | AskOrder(task: nat, oid: string)
    | HedgeReturned(task: nat, raised: bool)
    | Compare(task: nat, book: bool)
    | Stream(oid: string, count: int)
    | Booked(oid: string, qty: int, hedged: int)
    | Unwind(oid: string, n: int, sent: bool)
    | UnwindFill(oid: string, n: int)

  const INITIAL := State(map[], map[], 0, 0, 0, 0, false, [])

  /** Compare and advance, without an await in between: the new part of a cumulative count is hedged. */
  function Recognize(o: Order, got: int): Order {
    var delta := got - o.cum;
    if delta > 0 then o.(cum := got, dispatched := o.dispatched + [delta], pending := o.pending + delta) else o
  }

  function TakeAnswer(t: Task, v: Option<int>, now: nat): Task {
    match t
    case AskingFilled(oid) => FilledAnswered(oid, v)
    case AskingOrder(oid, got) => OrderAnswered(oid, got, v)
    case AskingPosition => PositionAnswered(v, now)
    case ReconAsking(net, own, readAt, ownAt, oid) => ReconAnswered(net, own, readAt, ownAt, oid, v)
    case _ => t
  }

  function MaxInt(a: int, b: int): int {
    if a >= b then a else b
  }

  function Signed(buy: bool, n: int): int {
    if buy then n else -n
  }

  predicate Asks(t: Task, oid: string) {
    (t.AskingFilled? || t.AskingOrder? || t.ReconAsking?) && t.oid == oid
  }

  /** The venue never reports more of an order than it has filled, and fills are never taken back. A read
      that fails answers None; a position read may answer anything. Everything else about timing is free. */
  ghost predicate Possible(s: State, e: Event) {
    match e
    case Place(oid, _) => oid !in s.orders
    case Fill(oid, n) => oid in s.orders && n > 0
    case OtherFill(_) => true
    case StartSettle(t, oid) => t !in s.tasks && oid in s.orders
    case StartRecon(t) => t !in s.tasks
    case Answer(t, v) =>
      t in s.tasks && forall oid :: oid in s.orders && Asks(s.tasks[t], oid) && v.Some? ==>
        0 <= v.value <= s.orders[oid].filled
    case Resume(t) => t in s.tasks
    case AskOrder(t, oid) => t in s.tasks && s.tasks[t].Scanning? && oid in s.orders
    case HedgeReturned(t, _) => t in s.tasks && s.tasks[t].ReconHedging?
    case Compare(t, _) => t in s.tasks && s.tasks[t].Scanning?
    case Stream(oid, v) => oid in s.orders && 0 <= v <= s.orders[oid].filled
    case Booked(oid, q, h) => oid in s.orders && 0 <= h <= q <= s.orders[oid].pending
    case Unwind(oid, n, _) => oid in s.orders && 0 < n <= s.orders[oid].remainder
    case UnwindFill(oid, n) => oid in s.orders && 0 < n <= s.orders[oid].unwinding
  }

  function WithOrder(s: State, oid: string, o: Order): State {
    s.(orders := s.orders[oid := o])
  }

  function WithTask(s: State, id: nat, t: Task): State {
    s.(tasks := s.tasks[id := t])
  }

  function Finish(s: State, id: nat, oid: string, got: int): State {
    s.(orders := if oid in s.orders then s.orders[oid := Recognize(s.orders[oid], got)] else s.orders,
       tasks := s.tasks - {id})
  }

  /** A coroutine runs on to its next await. */
  function Advance(s: State, id: nat): State
    requires id in s.tasks
  {
    match s.tasks[id]
    case FilledAnswered(oid, v) => WithTask(s, id, AskingOrder(oid, if v.Some? then v.value else 0))
    case OrderAnswered(oid, got, v) => Finish(s, id, oid, if v.Some? then MaxInt(got, v.value) else got)
    case PositionAnswered(v, readAt) =>
      if v.Some? then WithTask(s, id, Scanning(v.value, s.hedgedNet, readAt, s.now)) else s.(tasks := s.tasks - {id})
    case ReconAnswered(net, own, readAt, ownAt, oid, v) =>
      if v.Some? && oid in s.orders && v.value > s.orders[oid].cum
      then WithTask(WithOrder(s, oid, Recognize(s.orders[oid], v.value)), id, ReconHedging(net, own, readAt, ownAt))
      else WithTask(s, id, Scanning(net, own, readAt, ownAt))
    case _ => s
  }

  /** The comparison of what the venue reported with what was hedged; a difference is flattened once. */
  function Compared(s: State, id: nat, book: bool): State
    requires id in s.tasks && s.tasks[id].Scanning?
  {
    var unexpected := s.tasks[id].net - s.tasks[id].own;
    var done := s.(tasks := s.tasks - {id});
    if unexpected == 0 || s.latched then done
    else done.(latched := true, flattens := if book then s.flattens + [unexpected] else s.flattens)
  }

  function OnOrder(o: Order, e: Event): Order {
    match e
    case Fill(_, n) => o.(filled := o.filled + n)
    case Stream(_, v) => Recognize(o, v)
    case Booked(_, q, h) => o.(pending := o.pending - q, booked := o.booked + h, remainder := o.remainder + q - h)
    case Unwind(_, n, sent) =>
      if sent then o.(remainder := o.remainder - n, unwinding := o.unwinding + n)
      else o.(remainder := o.remainder - n, naked := o.naked + n)
    case UnwindFill(_, n) => o.(unwinding := o.unwinding - n, unwound := o.unwound + n)
    case _ => o
  }

  /** What an event of an order does to the venue's position and to the probe's count. */
  function Moves(o: Order, e: Event): (int, int) {
    match e
    case Fill(_, n) => (Signed(o.buy, n), 0)
    case Booked(_, _, h) => (0, Signed(o.buy, h))
    case UnwindFill(_, n) => (-Signed(o.buy, n), 0)
    case _ => (0, 0)
  }

  predicate OfOrder(e: Event) {
    e.Fill? || e.Stream? || e.Booked? || e.Unwind? || e.UnwindFill?
  }

  function Act(s: State, e: Event): State {
    match e
    case Place(oid, buy) => WithOrder(s, oid, Order(buy, 0, 0, [], 0, 0, 0, 0, 0, 0))
    case OtherFill(n) => s.(pos := s.pos + n, foreign := s.foreign + n)
    case StartSettle(t, oid) => WithTask(s, t, AskingFilled(oid))
    case StartRecon(t) => WithTask(s, t, AskingPosition)
    case Answer(t, v) => if t in s.tasks then WithTask(s, t, TakeAnswer(s.tasks[t], v, s.now)) else s
    case Resume(t) => if t in s.tasks then Advance(s, t) else s
    case AskOrder(t, oid) =>
      if t in s.tasks && s.tasks[t].Scanning?
      then var r := s.tasks[t]; WithTask(s, t, ReconAsking(r.net, r.own, r.readAt, r.ownAt, oid))
      else s
    case HedgeReturned(t, raised) =>
      if t in s.tasks && s.tasks[t].ReconHedging?
      then
        var r := s.tasks[t];
        WithTask(s, t, if raised then Scanning(r.net, r.own, r.readAt, r.ownAt)
                       else Scanning(r.net, s.hedgedNet, r.readAt, s.now))
      else s
    case Compare(t, book) => if t in s.tasks && s.tasks[t].Scanning? then Compared(s, t, book) else s
    case _ =>
      if e.oid in s.orders
      then
        var o := s.orders[e.oid];
        WithOrder(s, e.oid, OnOrder(o, e)).(pos := s.pos + Moves(o, e).0, hedgedNet := s.hedgedNet + Moves(o, e).1)
      else s
  }

  function Step(s: State, e: Event): State {
    Act(s, e).(now := s.now + 1)
  }

  function Exec(s: State, es: seq<Event>): State {
    if es == [] then s else Step(Exec(s, es[..|es| - 1]), es[|es| - 1])
  }

  /** Every event of the run was possible when it happened. */
  ghost predicate Legal(s: State, es: seq<Event>) {
    es == [] || (Legal(s, es[..|es| - 1]) && Possible(Exec(s, es[..|es| - 1]), es[|es| - 1]))
  }

  // ---------- safety ----------

  /** A count a task carries never exceeds the venue's. */
  ghost predicate CountOk(s: State, oid: string, count: Option<int>) {
    oid in s.orders && (count.Some? ==> 0 <= count.value <= s.orders[oid].filled)
  }

  ghost predicate TaskOk(s: State, t: Task) {
    match t
    case AskingFilled(oid) => CountOk(s, oid, None)
    case FilledAnswered(oid, v) => CountOk(s, oid, v)
    case AskingOrder(oid, got) => CountOk(s, oid, Some(got))
    case OrderAnswered(oid, got, v) => CountOk(s, oid, Some(got)) && CountOk(s, oid, v)
    case ReconAsking(_, _, _, _, oid) => CountOk(s, oid, None)
    case ReconAnswered(_, _, _, _, oid, v) => CountOk(s, oid, v)
    case _ => true
  }

  /** Each recognized contract was dispatched once, none was invented, and every dispatched contract is at
      exactly one stage. */
  ghost predicate OrderOk(o: Order) {
    && 0 <= o.cum <= o.filled
    && Sum(o.dispatched) == o.cum
    && (forall q :: q in o.dispatched ==> q > 0)
    && o.cum == o.pending + o.booked + o.remainder + o.unwinding + o.unwound + o.naked
    && 0 <= o.pending && 0 <= o.booked && 0 <= o.remainder && 0 <= o.unwinding && 0 <= o.unwound && 0 <= o.naked
  }

  ghost predicate Ok(s: State) {
    && (forall oid :: oid in s.orders ==> OrderOk(s.orders[oid]))
    && (forall t :: t in s.tasks ==> TaskOk(s, s.tasks[t]))
  }

  lemma RecognizeOk(o: Order, got: int)
    requires OrderOk(o) && got <= o.filled
    ensures OrderOk(Recognize(o, got))
    ensures Recognize(o, got).filled == o.filled && Recognize(o, got).cum == MaxInt(o.cum, got)
    ensures o.dispatched <= Recognize(o, got).dispatched
  {
    if got > o.cum {
      SumAppend(o.dispatched, got - o.cum);
    }
  }

  /** Orders only move forward. */
  ghost predicate Forward(a: Order, b: Order) {
    a.filled <= b.filled && a.cum <= b.cum && a.dispatched <= b.dispatched && a.buy == b.buy
  }

  /** The orders of t are those of s, none of them moved back. */
  ghost predicate OrdersForward(s: State, t: State) {
    forall oid :: oid in s.orders ==> oid in t.orders && Forward(s.orders[oid], t.orders[oid])
  }

  lemma TaskStaysOk(s: State, t: State, task: Task)
    requires TaskOk(s, task) && OrdersForward(s, t)
    ensures TaskOk(t, task)
  {}

  /** One order moves forward. */
  lemma OneForward(s: State, oid: string, o: Order)
    requires Ok(s) && OrderOk(o) && (oid in s.orders ==> Forward(s.orders[oid], o))
    ensures var t := WithOrder(s, oid, o);
      OrdersForward(s, t) && forall x :: x in t.orders ==> OrderOk(t.orders[x])
  {}

  lemma WithOrderOk(s: State, oid: string, o: Order)
    requires Ok(s) && OrderOk(o) && (oid in s.orders ==> Forward(s.orders[oid], o))
    ensures Ok(WithOrder(s, oid, o)) && OrdersForward(s, WithOrder(s, oid, o))
  {
    OneForward(s, oid, o);
    forall x | x in s.tasks ensures TaskOk(WithOrder(s, oid, o), s.tasks[x]) {
      TaskStaysOk(s, WithOrder(s, oid, o), s.tasks[x]);
    }
  }

  lemma WithTaskOk(s: State, id: nat, t: Task)
    requires Ok(s) && TaskOk(s, t)
    ensures Ok(WithTask(s, id, t)) && OrdersForward(s, WithTask(s, id, t))
  {
    var u := WithTask(s, id, t);
    forall x | x in u.tasks ensures TaskOk(u, u.tasks[x]) { TaskStaysOk(s, u, if x == id then t else s.tasks[x]); }
  }

  lemma EndTaskOk(s: State, id: nat)
    requires Ok(s)
    ensures Ok(s.(tasks := s.tasks - {id})) && OrdersForward(s, s.(tasks := s.tasks - {id}))
  {
    var u := s.(tasks := s.tasks - {id});
    forall x | x in u.tasks ensures TaskOk(u, u.tasks[x]) { TaskStaysOk(s, u, s.tasks[x]); }
  }

  lemma FinishOk(s: State, id: nat, oid: string, got: int)
    requires Ok(s) && oid in s.orders && got <= s.orders[oid].filled
    ensures Ok(Finish(s, id, oid, got)) && OrdersForward(s, Finish(s, id, oid, got))
  {
    var mid := s.(tasks := s.tasks - {id});
    EndTaskOk(s, id);
    RecognizeOk(s.orders[oid], got);
    WithOrderOk(mid, oid, Recognize(s.orders[oid], got));
    assert Finish(s, id, oid, got) == WithOrder(mid, oid, Recognize(s.orders[oid], got));
  }

  lemma AdvanceOk(s: State, id: nat)
    requires Ok(s) && id in s.tasks
    ensures Ok(Advance(s, id)) && OrdersForward(s, Advance(s, id))
  {
    var t := s.tasks[id];
    assert TaskOk(s, t);
    match t {
      case FilledAnswered(oid, v) =>
        assert OrderOk(s.orders[oid]);
        WithTaskOk(s, id, AskingOrder(oid, if v.Some? then v.value else 0));
      case OrderAnswered(oid, got, v) => FinishOk(s, id, oid, if v.Some? then MaxInt(got, v.value) else got);
      case PositionAnswered(v, readAt) =>
        if v.Some? { WithTaskOk(s, id, Scanning(v.value, s.hedgedNet, readAt, s.now)); } else { EndTaskOk(s, id); }
      case ReconAnswered(net, own, readAt, ownAt, oid, v) =>
        if v.Some? && v.value > s.orders[oid].cum {
          RecognizeOk(s.orders[oid], v.value);
          WithOrderOk(s, oid, Recognize(s.orders[oid], v.value));
          WithTaskOk(WithOrder(s, oid, Recognize(s.orders[oid], v.value)), id, ReconHedging(net, own, readAt, ownAt));
        } else {
          WithTaskOk(s, id, Scanning(net, own, readAt, ownAt));
        }
      case _ =>
    }
  }

  lemma OnOrderOk(s: State, e: Event)
    requires Ok(s) && Possible(s, e) && OfOrder(e)
    ensures OrderOk(OnOrder(s.orders[e.oid], e)) && Forward(s.orders[e.oid], OnOrder(s.orders[e.oid], e))
  {
    assert OrderOk(s.orders[e.oid]);
    if e.Stream? { RecognizeOk(s.orders[e.oid], e.count); }
  }

  lemma AnswerOk(s: State, id: nat, v: Option<int>)
    requires Ok(s) && Possible(s, Answer(id, v))
    ensures TaskOk(s, TakeAnswer(s.tasks[id], v, s.now))
  {
    var t := s.tasks[id];
    assert TaskOk(s, t);
    if t.AskingFilled? || t.AskingOrder? || t.ReconAsking? { assert Asks(t, t.oid); }
  }

  lemma SameOrdersAndTasks(s: State, t: State)
    requires Ok(s) && t.orders == s.orders && t.tasks == s.tasks
    ensures Ok(t)
  {
    forall x | x in t.tasks ensures TaskOk(t, t.tasks[x]) { TaskStaysOk(s, t, s.tasks[x]); }
  }

  lemma TaskEventOk(s: State, e: Event)
    requires Ok(s) && Possible(s, e)
    requires e.StartSettle? || e.StartRecon? || e.Answer? || e.AskOrder? || e.HedgeReturned? || e.Compare?
    ensures Ok(Act(s, e)) && OrdersForward(s, Act(s, e))
  {
    if e.Compare? {
      EndTaskOk(s, e.task);
      SameOrdersAndTasks(s.(tasks := s.tasks - {e.task}), Act(s, e));
    } else {
      if e.Answer? { AnswerOk(s, e.task, e.value); }
      WithTaskOk(s, e.task, Act(s, e).tasks[e.task]) by {
        assert e.StartSettle? ==> CountOk(s, e.oid, None);
        assert e.AskOrder? ==> CountOk(s, e.oid, None);
      }
      assert Act(s, e) == WithTask(s, e.task, Act(s, e).tasks[e.task]);
    }
  }

  lemma ActOk(s: State, e: Event)
    requires Ok(s) && Possible(s, e)
    ensures Ok(Act(s, e)) && OrdersForward(s, Act(s, e))
  {
    if e.Resume? {
      AdvanceOk(s, e.task);
    } else if e.Place? {
      WithOrderOk(s, e.oid, Order(e.buy, 0, 0, [], 0, 0, 0, 0, 0, 0));
    } else if e.OtherFill? {
      SameOrdersAndTasks(s, Act(s, e));
    } else if OfOrder(e) {
      var o := OnOrder(s.orders[e.oid], e);
      OnOrderOk(s, e);
      WithOrderOk(s, e.oid, o);
      SameOrdersAndTasks(WithOrder(s, e.oid, o), Act(s, e));
    } else {
      TaskEventOk(s, e);
    }
  }

  lemma StepOk(s: State, e: Event)
    requires Ok(s) && Possible(s, e)
    ensures Ok(Step(s, e)) && OrdersForward(s, Step(s, e))
  {
    ActOk(s, e);
    SameOrdersAndTasks(Act(s, e), Step(s, e));
  }

  /** Under every interleaving, the quantities passed to hedge for an order sum to its recognized count,
      which only grows and never exceeds the venue's fill; and every contract of the fill is at exactly one
      stage. */
  lemma {:induction false} ExactlyOnce(es: seq<Event>)
    requires Legal(INITIAL, es)
    ensures Ok(Exec(INITIAL, es))
    ensures forall oid :: oid in Exec(INITIAL, es).orders ==>
      var o := Exec(INITIAL, es).orders[oid];
      Sum(o.dispatched) == o.cum <= o.filled && o.filled == Outstanding(o) + o.booked + o.unwound
  {
    if es != [] {
      ExactlyOnce(es[..|es| - 1]);
      StepOk(Exec(INITIAL, es[..|es| - 1]), es[|es| - 1]);
    }
    forall oid | oid in Exec(INITIAL, es).orders ensures OrderOk(Exec(INITIAL, es).orders[oid]) {}
  }

  /** Recognized counts and dispatches are monotone over any continuation of a run. */
  lemma {:induction false} RunForward(s: State, es: seq<Event>)
    requires Ok(s) && Legal(s, es)
    ensures Ok(Exec(s, es)) && OrdersForward(s, Exec(s, es))
  {
    if es != [] {
      RunForward(s, es[..|es| - 1]);
      StepOk(Exec(s, es[..|es| - 1]), es[|es| - 1]);
    }
  }

  /** A detector that reads the whole fill catches the order up, whoever else was at work. */
  lemma FreshReadCatchesUp(s: State, t: nat)
    requires Ok(s) && t in s.tasks
    requires s.tasks[t].OrderAnswered? || s.tasks[t].ReconAnswered?
    requires s.tasks[t].oid in s.orders && s.tasks[t].answer == Some(s.orders[s.tasks[t].oid].filled)
    ensures s.tasks[t].oid in Step(s, Resume(t)).orders
    ensures var o := Step(s, Resume(t)).orders[s.tasks[t].oid];
      o.cum == o.filled && Sum(o.dispatched) == o.filled
  {
    var task := s.tasks[t];
    assert TaskOk(s, task) && OrderOk(s.orders[task.oid]);
    RecognizeOk(s.orders[task.oid], s.orders[task.oid].filled);
  }

  // ---------- a detector's two reads ----------

  predicate Answers(e: Event, id: nat) {
    e.Answer? && e.task == id
  }

  predicate Resumes(e: Event, id: nat) {
    e.Resume? && e.task == id
  }

  predicate NoAnswer(es: seq<Event>, id: nat) {
    forall e :: e in es ==> !Answers(e, id)
  }

  predicate NoResume(es: seq<Event>, id: nat) {
    forall e :: e in es ==> !Resumes(e, id)
  }

  /** A count that was read; a read that failed counts for nothing. */
  function Count(v: Option<int>): int {
    if v.Some? then v.value else 0
  }

  /** The two reads of a detector, each answered and then resumed from, whatever happens before, between and
      after them: before and between, others may even try to resume it or answer it out of turn. */
  datatype Reads = Reads(before: seq<Event>, filledQty: Option<int>, waiting: seq<Event>,
                         between: seq<Event>, getOrder: Option<int>, after: seq<Event>)

  ghost predicate InTurn(r: Reads, id: nat) {
    NoAnswer(r.before, id) && NoResume(r.waiting, id) && NoAnswer(r.between, id) && NoResume(r.after, id)
  }

  function FirstRead(r: Reads, id: nat): seq<Event> {
    r.before + [Answer(id, r.filledQty)] + r.waiting + [Resume(id)]
  }

  function SecondRead(r: Reads, id: nat): seq<Event> {
    r.between + [Answer(id, r.getOrder)] + r.after
  }

  /** Everything up to the last resumption of the detector. */
  function Reading(r: Reads, id: nat): seq<Event> {
    FirstRead(r, id) + SecondRead(r, id)
  }

  lemma {:induction false} RunSplits(s: State, a: seq<Event>, b: seq<Event>)
    ensures Exec(s, a + b) == Exec(Exec(s, a), b)
    ensures Legal(s, a + b) <==> Legal(s, a) && Legal(Exec(s, a), b)
  {
    if b == [] {
      assert a + b == a;
    } else {
      var (init, e) := (b[..|b| - 1], b[|b| - 1]);
      RunSplits(s, a, init);
      assert (a + b)[..|a + b| - 1] == a + init;
    }
  }

  /** A detector that waits for an answer, or has one and was not resumed, stays where it is. */
  ghost predicate Waits(t: Task, es: seq<Event>, id: nat) {
    || ((t.AskingFilled? || t.AskingOrder? || t.ReconAsking?) && NoAnswer(es, id))
    || ((t.FilledAnswered? || t.OrderAnswered? || t.ReconAnswered?) && NoResume(es, id))
  }

  lemma StepWaits(s: State, e: Event, id: nat)
    requires Possible(s, e) && id in s.tasks && Waits(s.tasks[id], [e], id)
    ensures id in Step(s, e).tasks && Step(s, e).tasks[id] == s.tasks[id]
  {
    assert e in [e];
  }

  lemma {:induction false} WaitingStays(s: State, es: seq<Event>, id: nat)
    requires Legal(s, es) && id in s.tasks && Waits(s.tasks[id], es, id)
    ensures id in Exec(s, es).tasks && Exec(s, es).tasks[id] == s.tasks[id]
  {
    if es != [] {
      var (init, e) := (es[..|es| - 1], es[|es| - 1]);
      assert e in es;
      forall x | x in init ensures x in es {}
      WaitingStays(s, init, id);
      StepWaits(Exec(s, init), e, id);
    }
  }

  /** One read: what was answered, whatever happened before the answer and before the resumption. */
  lemma {:induction false} OneRead(s: State, id: nat, a: seq<Event>, v: Option<int>, b: seq<Event>)
    requires id in s.tasks && (s.tasks[id].AskingFilled? || s.tasks[id].AskingOrder? || s.tasks[id].ReconAsking?)
    requires Legal(s, a + [Answer(id, v)] + b) && NoAnswer(a, id) && NoResume(b, id)
    ensures var t := Exec(s, a + [Answer(id, v)] + b);
      id in t.tasks && t.tasks[id] == TakeAnswer(s.tasks[id], v, 0)
  {
    var answer := [Answer(id, v)];
    RunSplits(s, a + answer, b);
    RunSplits(s, a, answer);
    WaitingStays(s, a, id);
    var mid := Exec(s, a);
    assert answer[..0] == [] && Exec(mid, answer) == Step(mid, Answer(id, v));
    WaitingStays(Exec(mid, answer), b, id);
  }

  lemma {:induction false} FirstReadTold(s: State, id: nat, r: Reads)
    requires id in s.tasks && s.tasks[id].AskingFilled? && InTurn(r, id) && Legal(s, FirstRead(r, id))
    ensures id in Exec(s, FirstRead(r, id)).tasks
    ensures Exec(s, FirstRead(r, id)).tasks[id] == AskingOrder(s.tasks[id].oid, Count(r.filledQty))
  {
    var answered := r.before + [Answer(id, r.filledQty)] + r.waiting;
    RunSplits(s, answered, [Resume(id)]);
    OneRead(s, id, r.before, r.filledQty, r.waiting);
    var t := Exec(s, answered);
    assert [Resume(id)][..0] == [] && Exec(t, [Resume(id)]) == Step(t, Resume(id));
  }

  /** After both reads the detector holds both answers. */
  lemma {:induction false} BothReadsTold(s: State, id: nat, r: Reads)
    requires id in s.tasks && s.tasks[id].AskingFilled? && InTurn(r, id) && Legal(s, Reading(r, id))
    ensures id in Exec(s, Reading(r, id)).tasks
    ensures Exec(s, Reading(r, id)).tasks[id] == OrderAnswered(s.tasks[id].oid, Count(r.filledQty), r.getOrder)
  {
    RunSplits(s, FirstRead(r, id), SecondRead(r, id));
    FirstReadTold(s, id, r);
    OneRead(Exec(s, FirstRead(r, id)), id, r.between, r.getOrder, r.after);
  }

  /** Resumed with both answers, a detector recognizes the larger of them if that is news, and ends. */
  lemma ResumeSettles(t: State, id: nat, oid: string, got: int, v: Option<int>)
    requires Ok(t) && id in t.tasks && t.tasks[id] == OrderAnswered(oid, got, v)
    ensures oid in t.orders && var u := Step(t, Resume(id));
      && id !in u.tasks && oid in u.orders && u.orders[oid].filled == t.orders[oid].filled
      && got <= t.orders[oid].filled && Count(v) <= t.orders[oid].filled && t.orders[oid].cum <= t.orders[oid].filled
      && u.orders[oid].cum == MaxInt(t.orders[oid].cum, MaxInt(got, Count(v)))
      && u.orders[oid].dispatched == t.orders[oid].dispatched
           + if u.orders[oid].cum > t.orders[oid].cum then [u.orders[oid].cum - t.orders[oid].cum] else []
  {
    assert TaskOk(t, t.tasks[id]) && OrderOk(t.orders[oid]);
  }

  /** When a detector ends, the recognized count is the largest of the count then and its two answers, a
      failed read counting for nothing, whatever happened in between; and what is new is hedged at once. */
  lemma {:induction false} SettlesToTheLargest(s: State, id: nat, r: Reads)
    requires Ok(s) && id in s.tasks && s.tasks[id].AskingFilled?
    requires InTurn(r, id) && Legal(s, Reading(r, id))
    ensures var (oid, t) := (s.tasks[id].oid, Exec(s, Reading(r, id)));
      && oid in t.orders && var u := Step(t, Resume(id));
      && id !in u.tasks && oid in u.orders
      && u.orders[oid].cum == MaxInt(t.orders[oid].cum, MaxInt(Count(r.filledQty), Count(r.getOrder)))
      && u.orders[oid].dispatched == t.orders[oid].dispatched
           + if u.orders[oid].cum > t.orders[oid].cum then [u.orders[oid].cum - t.orders[oid].cum] else []
  {
    RunForward(s, Reading(r, id));
    BothReadsTold(s, id, r);
    ResumeSettles(Exec(s, Reading(r, id)), id, s.tasks[id].oid, Count(r.filledQty), r.getOrder);
  }

  /** So it leaves the order fully recognized if and only if it was, or either read shows what is filled. */
  lemma {:induction false} EitherReadCatchesUp(s: State, id: nat, r: Reads)
    requires Ok(s) && id in s.tasks && s.tasks[id].AskingFilled?
    requires InTurn(r, id) && Legal(s, Reading(r, id))
    ensures var (oid, t) := (s.tasks[id].oid, Exec(s, Reading(r, id)));
      && oid in t.orders && var u := Step(t, Resume(id));
      && oid in u.orders && u.orders[oid].filled == t.orders[oid].filled
      && (u.orders[oid].cum == u.orders[oid].filled <==>
            || t.orders[oid].cum == u.orders[oid].filled
            || r.filledQty == Some(u.orders[oid].filled) || r.getOrder == Some(u.orders[oid].filled))
  {
    RunForward(s, Reading(r, id));
    BothReadsTold(s, id, r);
    ResumeSettles(Exec(s, Reading(r, id)), id, s.tasks[id].oid, Count(r.filledQty), r.getOrder);
  }

  lemma SplitAtAnswer(es: seq<Event>, id: nat) returns (i: nat)
    ensures i <= |es| && NoAnswer(es[..i], id) && (i < |es| ==> Answers(es[i], id))
  {
    i := 0;
    while i < |es| && !Answers(es[i], id)
      invariant i <= |es| && NoAnswer(es[..i], id)
    {
      assert es[..i + 1] == es[..i] + [es[i]];
      i := i + 1;
    }
  }

  lemma SplitAtResume(es: seq<Event>, id: nat) returns (i: nat)
    ensures i <= |es| && NoResume(es[..i], id) && (i < |es| ==> Resumes(es[i], id))
  {
    i := 0;
    while i < |es| && !Resumes(es[i], id)
      invariant i <= |es| && NoResume(es[..i], id)
    {
      assert es[..i + 1] == es[..i] + [es[i]];
      i := i + 1;
    }
  }

  predicate IsDetector(t: Task) {
    t.AskingFilled? || t.FilledAnswered? || t.AskingOrder? || t.OrderAnswered?
  }

  /** Only a resumption with both answers ends a detector, and it never becomes anything else. */
  lemma EndsOnlyWhenRead(s: State, e: Event, id: nat)
    requires Possible(s, e) && id in s.tasks && IsDetector(s.tasks[id])
    ensures id !in Step(s, e).tasks ==> s.tasks[id].OrderAnswered? && e == Resume(id)
    ensures id in Step(s, e).tasks ==> IsDetector(Step(s, e).tasks[id])
  {}

  /** The detector runs at every moment of the run. */
  ghost predicate Runs(s: State, es: seq<Event>, id: nat) {
    id in Exec(s, es).tasks && (es != [] ==> Runs(s, es[..|es| - 1], id))
  }

  lemma {:induction false} RunsSplits(s: State, a: seq<Event>, b: seq<Event>, id: nat)
    requires Runs(s, a + b, id)
    ensures Runs(s, a, id) && Runs(Exec(s, a), b, id)
  {
    RunSplits(s, a, b);
    if b == [] {
      assert a + b == a;
    } else {
      assert (a + b)[..|a + b| - 1] == a + b[..|b| - 1];
      RunsSplits(s, a, b[..|b| - 1], id);
    }
  }

  lemma {:induction false} StaysADetector(s: State, es: seq<Event>, id: nat)
    requires id in s.tasks && IsDetector(s.tasks[id]) && Legal(s, es) && Runs(s, es, id)
    ensures IsDetector(Exec(s, es).tasks[id])
  {
    if es != [] {
      StaysADetector(s, es[..|es| - 1], id);
      EndsOnlyWhenRead(Exec(s, es[..|es| - 1]), es[|es| - 1], id);
    }
  }

  lemma {:induction false} ResumedAfter(s: State, id: nat, a: seq<Event>, v: Option<int>, es: seq<Event>)
    returns (b: seq<Event>, rest: seq<Event>)
    requires id in s.tasks && s.tasks[id].AskingFilled? && NoAnswer(a, id)
    requires Legal(s, a + [Answer(id, v)] + es)
    requires var t := Exec(s, a + [Answer(id, v)] + es); id in t.tasks && t.tasks[id].OrderAnswered?
    ensures es == b + [Resume(id)] + rest && NoResume(b, id)
  {
    var j := SplitAtResume(es, id);
    if j == |es| {
      assert es[..j] == es;
      OneRead(s, id, a, v, es);
      assert false;
    } else {
      b, rest := es[..j], es[j + 1..];
    }
  }

  lemma {:induction false} AnsweredSomewhere(s: State, es: seq<Event>, id: nat) returns (i: nat)
    requires id in s.tasks && (s.tasks[id].AskingFilled? || s.tasks[id].AskingOrder?) && Legal(s, es)
    requires id in Exec(s, es).tasks && Exec(s, es).tasks[id].OrderAnswered?
    ensures i < |es| && Answers(es[i], id) && NoAnswer(es[..i], id)
  {
    i := SplitAtAnswer(es, id);
    if i == |es| {
      assert es[..i] == es;
      WaitingStays(s, es, id);
      assert false;
    }
  }

  /** From its first answer to where it asks again. */
  lemma {:induction false} CutFirstRead(s: State, es: seq<Event>, id: nat)
    returns (a: seq<Event>, v: Option<int>, b: seq<Event>, rest: seq<Event>)
    requires id in s.tasks && s.tasks[id].AskingFilled? && Legal(s, es)
    requires id in Exec(s, es).tasks && Exec(s, es).tasks[id].OrderAnswered?
    ensures es == a + [Answer(id, v)] + b + [Resume(id)] + rest && NoAnswer(a, id) && NoResume(b, id)
  {
    var i := AnsweredSomewhere(s, es, id);
    a, v := es[..i], es[i].value;
    assert es == a + [Answer(id, v)] + es[i + 1..];
    b, rest := ResumedAfter(s, id, a, v, es[i + 1..]);
  }

  lemma StepEnds(s: State, id: nat)
    requires id in s.tasks && s.tasks[id].OrderAnswered?
    ensures id !in Step(s, Resume(id)).tasks
  {}

  /** A detector with both answers that runs on was not resumed. */
  lemma {:induction false} NotResumedYet(s: State, es: seq<Event>, id: nat)
    requires id in s.tasks && s.tasks[id].OrderAnswered? && Legal(s, es) && Runs(s, es, id)
    ensures NoResume(es, id)
  {
    if es != [] {
      var (init, e) := (es[..|es| - 1], es[|es| - 1]);
      NotResumedYet(s, init, id);
      WaitingStays(s, init, id);
      if Resumes(e, id) {
        StepEnds(Exec(s, init), id);
        assert false;
      }
    }
  }

  lemma {:induction false} NotResumedAfter(s: State, id: nat, a: seq<Event>, v: Option<int>, b: seq<Event>)
    requires id in s.tasks && s.tasks[id].AskingOrder? && NoAnswer(a, id)
    requires Legal(s, a + [Answer(id, v)] + b) && Runs(s, a + [Answer(id, v)] + b, id)
    ensures NoResume(b, id)
  {
    var told := a + [Answer(id, v)];
    RunSplits(s, told, b);
    RunsSplits(s, told, b, id);
    assert told + [] == told;
    OneRead(s, id, a, v, []);
    NotResumedYet(Exec(s, told), b, id);
  }

  /** From where it asks again to its end. */
  lemma {:induction false} CutSecondRead(s: State, es: seq<Event>, id: nat)
    returns (a: seq<Event>, v: Option<int>, b: seq<Event>)
    requires id in s.tasks && s.tasks[id].AskingOrder? && Legal(s, es) && Runs(s, es, id)
    requires Exec(s, es).tasks[id].OrderAnswered?
    ensures es == a + [Answer(id, v)] + b && NoAnswer(a, id) && NoResume(b, id)
  {
    var i := AnsweredSomewhere(s, es, id);
    a, v, b := es[..i], es[i].value, es[i + 1..];
    assert es == a + [Answer(id, v)] + b;
    NotResumedAfter(s, id, a, v, b);
  }

  /** And every detector ends that way: a run at whose next event it ends is its two reads in turn. */
  lemma {:induction false} EveryDetectorReadsTwice(s: State, es: seq<Event>, id: nat, e: Event) returns (r: Reads)
    requires id in s.tasks && s.tasks[id].AskingFilled? && Legal(s, es) && Possible(Exec(s, es), e)
    requires Runs(s, es, id) && id !in Step(Exec(s, es), e).tasks
    ensures es == Reading(r, id) && InTurn(r, id) && e == Resume(id)
  {
    StaysADetector(s, es, id);
    EndsOnlyWhenRead(Exec(s, es), e, id);
    var a, v, b, rest := CutFirstRead(s, es, id);
    r := Reads(a, v, b, [], None, []);
    assert es == FirstRead(r, id) + rest;
    RunSplits(s, FirstRead(r, id), rest);
    RunsSplits(s, FirstRead(r, id), rest, id);
    FirstReadTold(s, id, r);
    var c, w, d := CutSecondRead(Exec(s, FirstRead(r, id)), rest, id);
    r := Reads(a, v, b, c, w, d);
  }

  /** A look of reconciliation at one order: asked, answered, and resumed from. */
  function Look(id: nat, oid: string, a: seq<Event>, v: Option<int>, b: seq<Event>): seq<Event> {
    [AskOrder(id, oid)] + (a + [Answer(id, v)] + b)
  }

  lemma {:induction false} LookTold(s: State, id: nat, oid: string, a: seq<Event>, v: Option<int>, b: seq<Event>)
    requires id in s.tasks && s.tasks[id].Scanning?
    requires Legal(s, Look(id, oid, a, v, b)) && NoAnswer(a, id) && NoResume(b, id)
    ensures var (r, t) := (s.tasks[id], Exec(s, Look(id, oid, a, v, b)));
      id in t.tasks && t.tasks[id] == ReconAnswered(r.net, r.own, r.readAt, r.ownAt, oid, v)
  {
    var (ask, read) := ([AskOrder(id, oid)], a + [Answer(id, v)] + b);
    RunSplits(s, ask, read);
    assert ask[..0] == [] && Exec(s, ask) == Step(s, AskOrder(id, oid));
    OneRead(Exec(s, ask), id, a, v, b);
  }

  /** Reconciliation recognizes what an order it looks at newly reports, whatever happens meanwhile: the count becomes
      the larger of the count then and the answer, and it goes on to hedge exactly when that is news. */
  lemma {:induction false} LookRecognizes(s: State, id: nat, oid: string, a: seq<Event>, v: Option<int>, b: seq<Event>)
    requires Ok(s) && id in s.tasks && s.tasks[id].Scanning?
    requires Legal(s, Look(id, oid, a, v, b)) && NoAnswer(a, id) && NoResume(b, id)
    ensures var (r, t) := (s.tasks[id], Exec(s, Look(id, oid, a, v, b)));
      && oid in t.orders && var u := Step(t, Resume(id));
      && oid in u.orders && id in u.tasks
      && u.orders[oid].cum == MaxInt(t.orders[oid].cum, Count(v))
      && u.tasks[id] == if u.orders[oid].cum > t.orders[oid].cum then ReconHedging(r.net, r.own, r.readAt, r.ownAt)
                        else Scanning(r.net, r.own, r.readAt, r.ownAt)
  {
    RunForward(s, Look(id, oid, a, v, b));
    LookTold(s, id, oid, a, v, b);
    LookResumed(Exec(s, Look(id, oid, a, v, b)), id);
  }

  lemma LookResumed(t: State, id: nat)
    requires Ok(t) && id in t.tasks && t.tasks[id].ReconAnswered?
    ensures var r := t.tasks[id];
      && r.oid in t.orders && var u := Step(t, Resume(id));
      && r.oid in u.orders && id in u.tasks
      && u.orders[r.oid].cum == MaxInt(t.orders[r.oid].cum, Count(r.answer))
      && u.tasks[id] == if u.orders[r.oid].cum > t.orders[r.oid].cum then ReconHedging(r.net, r.own, r.readAt, r.ownAt)
                        else Scanning(r.net, r.own, r.readAt, r.ownAt)
  {
    assert TaskOk(t, t.tasks[id]) && OrderOk(t.orders[t.tasks[id].oid]);
  }

  // ---------- where each contract is ----------

  /** What the events of a run did to an order: contracts filled, taken out of hedging, booked as hedged, sent to be
      unwound, left naked, and unwound. */
  datatype Tally = Tally(filled: int, taken: int, booked: int, sent: int, naked: int, unwound: int)

  function Counted(t: Tally, e: Event): Tally {
    match e
    case Fill(_, n) => t.(filled := t.filled + n)
    case Booked(_, q, h) => t.(taken := t.taken + q, booked := t.booked + h)
    case Unwind(_, n, sent) => if sent then t.(sent := t.sent + n) else t.(naked := t.naked + n)
    case UnwindFill(_, n) => t.(unwound := t.unwound + n)
    case _ => t
  }

  function TallyOf(es: seq<Event>, oid: string): Tally {
    if es == [] then Tally(0, 0, 0, 0, 0, 0)
    else
      var (t, e) := (TallyOf(es[..|es| - 1], oid), es[|es| - 1]);
      if OfOrder(e) && e.oid == oid then Counted(t, e) else t
  }

  /** The order's stages hold exactly what the events put there and did not take away. */
  ghost predicate Tallied(o: Order, t: Tally) {
    && o.filled == t.filled && o.pending == o.cum - t.taken && o.booked == t.booked
    && o.remainder == t.taken - t.booked - t.sent - t.naked
    && o.unwinding == t.sent - t.unwound && o.unwound == t.unwound && o.naked == t.naked
  }

  lemma RecognizeTallied(o: Order, t: Tally, got: int)
    requires Tallied(o, t)
    ensures Tallied(Recognize(o, got), t)
  {}

  /** A resumption recognizes some count, perhaps none that is new, of every order. */
  lemma ResumeOrders(s: State, id: nat, oid: string) returns (got: int)
    requires Ok(s) && Possible(s, Resume(id))
    ensures oid in Step(s, Resume(id)).orders <==> oid in s.orders
    ensures oid in s.orders ==> Step(s, Resume(id)).orders[oid] == Recognize(s.orders[oid], got)
  {
    var t := s.tasks[id];
    assert TaskOk(s, t);
    got := if oid in s.orders then s.orders[oid].cum else 0;
    if t.OrderAnswered? && t.oid == oid {
      got := if t.answer.Some? then MaxInt(t.got, t.answer.value) else t.got;
    } else if t.ReconAnswered? && t.oid == oid && t.answer.Some? {
      got := t.answer.value;
    }
  }

  lemma OnOrderTallied(o: Order, t: Tally, e: Event)
    requires OfOrder(e) && Tallied(o, t)
    ensures Tallied(OnOrder(o, e), Counted(t, e))
  {
    if e.Stream? { RecognizeTallied(o, t, e.count); }
  }

  /** Which order an event that is not a resumption changes. */
  lemma OtherOrders(s: State, e: Event, oid: string)
    requires Possible(s, e) && !e.Resume?
    ensures oid in Step(s, e).orders <==> oid in s.orders || (e.Place? && e.oid == oid)
    ensures oid in s.orders ==>
      Step(s, e).orders[oid] == if OfOrder(e) && e.oid == oid then OnOrder(s.orders[oid], e) else s.orders[oid]
    ensures oid !in s.orders && oid in Step(s, e).orders ==>
      Step(s, e).orders[oid] == Order(e.buy, 0, 0, [], 0, 0, 0, 0, 0, 0)
    ensures OfOrder(e) && e.oid == oid ==> oid in s.orders
  {}

  /** So it is of an order that was placed, and no event was about any other. */
  ghost predicate InStages(s: State, es: seq<Event>, oid: string) {
    if oid in s.orders then Tallied(s.orders[oid], TallyOf(es, oid)) else TallyOf(es, oid) == TallyOf([], oid)
  }

  lemma StepTallied(s: State, es: seq<Event>, e: Event, oid: string)
    requires Ok(s) && Possible(s, e)
    requires InStages(s, es, oid)
    ensures InStages(Step(s, e), es + [e], oid)
  {
    assert (es + [e])[..|es|] == es;
    if e.Resume? {
      var got := ResumeOrders(s, e.task, oid);
      if oid in s.orders { RecognizeTallied(s.orders[oid], TallyOf(es, oid), got); }
    } else {
      OtherOrders(s, e, oid);
      if OfOrder(e) && e.oid == oid { OnOrderTallied(s.orders[oid], TallyOf(es, oid), e); }
    }
  }

  /** Over any run every contract is where the events put it: what is being hedged was recognized and not taken out of
      hedging, what remains was neither hedged nor sent nor left naked, and so on. */
  lemma {:induction false} StagesAreTallied(es: seq<Event>, oid: string)
    requires Legal(INITIAL, es)
    ensures InStages(Exec(INITIAL, es), es, oid)
  {
    if es != [] {
      var (init, e) := (es[..|es| - 1], es[|es| - 1]);
      StagesAreTallied(init, oid);
      ExactlyOnce(init);
      StepTallied(Exec(INITIAL, init), init, e, oid);
      assert init + [e] == es;
    }
  }

  /** A bid that fills lengthens the position and an ask shortens it; what is booked and unwound of them likewise
      counts up and down. */
  lemma PositionMoves(s: State, e: Event)
    requires Possible(s, e)
    ensures var (t, up) := (Step(s, e), OfOrder(e) && s.orders[e.oid].buy);
      && t.pos == s.pos + (if e.Fill? then (if up then e.n else -e.n)
                           else if e.UnwindFill? then (if up then -e.n else e.n)
                           else if e.OtherFill? then e.n else 0)
      && t.hedgedNet == s.hedgedNet + (if e.Booked? then (if up then e.hedged else -e.hedged) else 0)
      && t.foreign == s.foreign + (if e.OtherFill? then e.n else 0)
  {}

  /** The count of the order that the event acts on: one from the stream, the larger of a detector's two answers,
      or the answer reconciliation got. */
  function Detects(s: State, e: Event, oid: string): Option<int> {
    if e.Stream? && e.oid == oid then Some(e.count)
    else if e.Resume? && e.task in s.tasks then
      var t := s.tasks[e.task];
      if t.OrderAnswered? && t.oid == oid then Some(MaxInt(t.got, Count(t.answer)))
      else if t.ReconAnswered? && t.oid == oid then t.answer
      else None
    else None
  }

  function LargestDetected(es: seq<Event>, oid: string): int {
    if es == [] then 0
    else
      var (before, found) := (LargestDetected(es[..|es| - 1], oid),
                              Detects(Exec(INITIAL, es[..|es| - 1]), es[|es| - 1], oid));
      if found.Some? then MaxInt(before, found.value) else before
  }

  lemma ResumeDetects(s: State, id: nat, oid: string)
    requires Ok(s) && Possible(s, Resume(id))
    ensures oid in s.orders ==> oid in Step(s, Resume(id)).orders
    ensures oid in s.orders ==>
      var (found, was) := (Detects(s, Resume(id), oid), s.orders[oid].cum);
      Step(s, Resume(id)).orders[oid].cum == if found.Some? then MaxInt(was, found.value) else was
    ensures oid !in s.orders ==> oid !in Step(s, Resume(id)).orders && Detects(s, Resume(id), oid).None?
  {
    assert TaskOk(s, s.tasks[id]);
    if oid in s.orders { assert OrderOk(s.orders[oid]); }
  }

  lemma StepDetects(s: State, e: Event, oid: string)
    requires Ok(s) && Possible(s, e)
    ensures oid in s.orders ==>
      && oid in Step(s, e).orders
      && var (found, was) := (Detects(s, e, oid), s.orders[oid].cum);
         Step(s, e).orders[oid].cum == if found.Some? then MaxInt(was, found.value) else was
    ensures oid !in s.orders && oid in Step(s, e).orders ==> Step(s, e).orders[oid].cum == 0
    ensures oid !in s.orders ==> Detects(s, e, oid).None?
  {
    if e.Resume? {
      ResumeDetects(s, e.task, oid);
    } else {
      OtherOrders(s, e, oid);
    }
  }

  /** Over any run the recognized count of an order is the largest that any detector acted on, whichever it was:
      no detection is left out, and none counts twice. */
  lemma {:induction false} RecognizedIsLargest(es: seq<Event>, oid: string)
    requires Legal(INITIAL, es)
    ensures oid in Exec(INITIAL, es).orders ==> Exec(INITIAL, es).orders[oid].cum == LargestDetected(es, oid)
    ensures oid !in Exec(INITIAL, es).orders ==> LargestDetected(es, oid) == 0
  {
    if es != [] {
      RecognizedIsLargest(es[..|es| - 1], oid);
      ExactlyOnce(es[..|es| - 1]);
      StepDetects(Exec(INITIAL, es[..|es| - 1]), es[|es| - 1], oid);
    }
  }

  ghost predicate NoFillOf(es: seq<Event>, oid: string) {
    forall e :: e in es ==> !(e.Fill? && e.oid == oid)
  }

  lemma {:induction false} NothingFills(s: State, es: seq<Event>, oid: string)
    requires Ok(s) && Legal(s, es) && oid in s.orders && NoFillOf(es, oid)
    ensures oid in Exec(s, es).orders && Exec(s, es).orders[oid].filled == s.orders[oid].filled
  {
    if es != [] {
      var (init, e) := (es[..|es| - 1], es[|es| - 1]);
      assert e in es;
      forall x | x in init ensures x in es {}
      NothingFills(s, init, oid);
      RunForward(s, init);
      FillStays(Exec(s, init), e, oid);
    }
  }

  lemma FillStays(s: State, e: Event, oid: string)
    requires Possible(s, e) && oid in s.orders && !(e.Fill? && e.oid == oid)
    ensures oid in Step(s, e).orders && Step(s, e).orders[oid].filled == s.orders[oid].filled
  {}

  /** When nothing fills while it runs, a detector of which either read shows the whole fill leaves the order
      fully recognized. */
  lemma {:induction false} OneGoodReadIsEnough(s: State, id: nat, r: Reads)
    requires Ok(s) && id in s.tasks && s.tasks[id].AskingFilled?
    requires InTurn(r, id) && Legal(s, Reading(r, id)) && NoFillOf(Reading(r, id), s.tasks[id].oid)
    ensures var (oid, u) := (s.tasks[id].oid, Step(Exec(s, Reading(r, id)), Resume(id)));
      && oid in s.orders && oid in u.orders && u.orders[oid].filled == s.orders[oid].filled
      && (r.filledQty == Some(s.orders[oid].filled) || r.getOrder == Some(s.orders[oid].filled) ==>
            u.orders[oid].cum == u.orders[oid].filled)
  {
    assert TaskOk(s, s.tasks[id]);
    NothingFills(s, Reading(r, id), s.tasks[id].oid);
    EitherReadCatchesUp(s, id, r);
  }

  /** The order is fully recognized, as it was at the start. */
  ghost predicate Settled(s: State, s': State, oid: string) {
    && oid in s.orders && oid in s'.orders && s'.orders[oid].dispatched == s.orders[oid].dispatched
    && s'.orders[oid].cum == s'.orders[oid].filled == s.orders[oid].filled
  }

  lemma StepKeepsSettled(s: State, mid: State, e: Event, oid: string)
    requires Ok(mid) && Possible(mid, e) && Settled(s, mid, oid) && !(e.Fill? && e.oid == oid)
    ensures Settled(s, Step(mid, e), oid)
  {
    if e.Resume? { assert TaskOk(mid, mid.tasks[e.task]); }
    assert OrderOk(mid.orders[oid]);
  }

  /** Once a fill is fully recognized, no late, repeated or delayed detection dispatches anything more. */
  lemma {:induction false} CaughtUpStaysQuiet(s: State, es: seq<Event>, oid: string)
    requires Ok(s) && Legal(s, es) && oid in s.orders && s.orders[oid].cum == s.orders[oid].filled
    requires NoFillOf(es, oid)
    ensures Ok(Exec(s, es)) && Settled(s, Exec(s, es), oid)
  {
    if es != [] {
      var init, e := es[..|es| - 1], es[|es| - 1];
      assert e in es;
      forall x | x in init ensures x in es {}
      CaughtUpStaysQuiet(s, init, oid);
      StepOk(Exec(s, init), e);
      StepKeepsSettled(s, Exec(s, init), e, oid);
    }
  }

  // ---------- the reconciliation backstop ----------

  /** What a position holds of an order beyond what was booked and unwound: fill that is not recognized yet,
      being hedged, waiting to be unwound, or naked. */
  function Outstanding(o: Order): int {
    (o.filled - o.cum) + o.pending + o.remainder + o.unwinding + o.naked
  }

  function Part(o: Order): int {
    Signed(o.buy, Outstanding(o))
  }

  ghost function SumOf(orders: map<string, Order>, keys: set<string>): int
    requires keys <= orders.Keys
  {
    if keys == {} then 0
    else
      var k :| k in keys;
      Part(orders[k]) + SumOf(orders, keys - {k})
  }

  /** The outstanding position over all orders of the pair. */
  ghost function Owed(orders: map<string, Order>): int {
    SumOf(orders, orders.Keys)
  }

  lemma {:induction false} SumSplits(orders: map<string, Order>, keys: set<string>, k: string)
    requires keys <= orders.Keys && k in keys
    ensures SumOf(orders, keys) == Part(orders[k]) + SumOf(orders, keys - {k})
  {
    var j :| j in keys && SumOf(orders, keys) == Part(orders[j]) + SumOf(orders, keys - {j});
    if j != k {
      SumSplits(orders, keys - {j}, k);
      SumSplits(orders, keys - {k}, j);
      assert keys - {j} - {k} == keys - {k} - {j};
    }
  }

  lemma {:induction false} SumAgrees(a: map<string, Order>, b: map<string, Order>, keys: set<string>)
    requires keys <= a.Keys && keys <= b.Keys && forall k :: k in keys ==> Part(a[k]) == Part(b[k])
    ensures SumOf(a, keys) == SumOf(b, keys)
  {
    if keys != {} {
      var k :| k in keys;
      SumSplits(a, keys, k);
      SumSplits(b, keys, k);
      SumAgrees(a, b, keys - {k});
    }
  }

  lemma OwedUpdates(orders: map<string, Order>, k: string, o: Order)
    ensures Owed(orders[k := o]) == Owed(orders) + Part(o) - if k in orders then Part(orders[k]) else 0
  {
    var b := orders[k := o];
    SumSplits(b, b.Keys, k);
    if k in orders {
      SumSplits(orders, orders.Keys, k);
      assert b.Keys - {k} == orders.Keys - {k};
      SumAgrees(orders, b, orders.Keys - {k});
    } else {
      assert b.Keys - {k} == orders.Keys;
      SumAgrees(orders, b, orders.Keys);
    }
  }

  /** The venue's position is what was hedged, what is outstanding and what is not the probe's. */
  ghost predicate Explained(s: State) {
    s.pos == s.hedgedNet + Owed(s.orders) + s.foreign
  }

  /** Recognizing a fill moves contracts between stages only. */
  lemma RecognizeKeepsPart(o: Order, got: int)
    ensures Part(Recognize(o, got)) == Part(o)
  {}

  lemma OnOrderPart(o: Order, e: Event)
    requires OfOrder(e)
    ensures Part(OnOrder(o, e)) == Part(o) + Moves(o, e).0 - Moves(o, e).1
  {
    if e.Stream? { RecognizeKeepsPart(o, e.count); }
  }

  lemma AdvanceExplained(s: State, id: nat)
    requires Explained(s) && id in s.tasks
    ensures Explained(Advance(s, id))
  {
    var t := s.tasks[id];
    match t {
      case OrderAnswered(oid, got, v) =>
        var count := if v.Some? then MaxInt(got, v.value) else got;
        if oid in s.orders {
          RecognizeKeepsPart(s.orders[oid], count);
          OwedUpdates(s.orders, oid, Recognize(s.orders[oid], count));
        }
      case ReconAnswered(_, _, _, _, oid, v) =>
        if v.Some? && oid in s.orders {
          RecognizeKeepsPart(s.orders[oid], v.value);
          OwedUpdates(s.orders, oid, Recognize(s.orders[oid], v.value));
        }
      case _ =>
    }
  }

  lemma StepExplained(s: State, e: Event)
    requires Explained(s) && Possible(s, e)
    ensures Explained(Step(s, e))
  {
    if e.Place? {
      OwedUpdates(s.orders, e.oid, Order(e.buy, 0, 0, [], 0, 0, 0, 0, 0, 0));
    } else if e.Resume? {
      AdvanceExplained(s, e.task);
    } else if OfOrder(e) {
      OnOrderPart(s.orders[e.oid], e);
      OwedUpdates(s.orders, e.oid, OnOrder(s.orders[e.oid], e));
    }
  }

  lemma {:induction false} RunExplained(es: seq<Event>)
    requires Legal(INITIAL, es)
    ensures Explained(Exec(INITIAL, es)) && Exec(INITIAL, es).now == |es|
  {
    if es != [] {
      RunExplained(es[..|es| - 1]);
      StepExplained(Exec(INITIAL, es[..|es| - 1]), es[|es| - 1]);
    }
  }

  predicate Reconciles(t: Task) {
    t.Scanning? || t.ReconAsking? || t.ReconAnswered? || t.ReconHedging?
  }

  /** Event k is where the task last took hedged_net: the last of its hedges that returned, or, without one, its
      first resumption after the position was answered. */
  ghost predicate TakesOwn(es: seq<Event>, id: nat, readAt: nat, k: nat) {
    && readAt < k < |es|
    && (|| es[k] == HedgeReturned(id, false)
        || (es[k] == Resume(id) && forall j :: readAt < j < k ==> es[j] != Resume(id)))
    && forall j :: k < j < |es| ==> es[j] != HedgeReturned(id, false)
  }

  /** What a reconciling task remembers is what was answered and counted at its two moments of the run. */
  ghost predicate Remembers(es: seq<Event>, id: nat, t: Task) {
    && (t.PositionAnswered? ==>
         && t.readAt < |es| && es[t.readAt] == Answer(id, t.answer)
         && forall j :: t.readAt < j < |es| ==> es[j] != Resume(id))
    && (Reconciles(t) ==>
         && t.readAt < |es| && es[t.readAt] == Answer(id, Some(t.net)) && TakesOwn(es, id, t.readAt, t.ownAt)
         && t.own == Exec(INITIAL, es[..t.ownAt]).hedgedNet)
  }

  /** t continues what u remembered, and hedged_net was taken again if the event says so. */
  predicate Continues(u: Task, t: Task, e: Event, id: nat, hedgedNet: int, now: nat)
    requires Reconciles(t)
  {
    && (|| (Reconciles(u) && t.net == u.net && t.readAt == u.readAt)
        || (u.PositionAnswered? && u.answer == Some(t.net) && t.readAt == u.readAt))
    && if e == HedgeReturned(id, false) || (u.PositionAnswered? && e == Resume(id))
       then t.own == hedgedNet && t.ownAt == now
       else Reconciles(u) && t.own == u.own && t.ownAt == u.ownAt
  }

  /** What a step does to a task that reconciles. */
  lemma TaskAfter(s: State, e: Event, id: nat)
    requires Possible(s, e) && id in Step(s, e).tasks
    ensures var t := Step(s, e).tasks[id];
      && (t.PositionAnswered? ==>
           || (id in s.tasks && s.tasks[id] == t && e != Resume(id))
           || (e == Answer(id, t.answer) && t.readAt == s.now))
      && (Reconciles(t) ==> id in s.tasks && Continues(s.tasks[id], t, e, id, s.hedgedNet, s.now))
  {}

  lemma RememberRead(es: seq<Event>, id: nat, t: Task)
    requires es != [] && Remembers(es[..|es| - 1], id, t) && t.PositionAnswered? && es[|es| - 1] != Resume(id)
    ensures Remembers(es, id, t)
  {
    var init := es[..|es| - 1];
    assert forall j :: 0 <= j < |init| ==> es[j] == init[j];
  }

  /** The moments of u in a longer run. */
  lemma TakenBefore(es: seq<Event>, id: nat, u: Task)
    requires es != [] && Remembers(es[..|es| - 1], id, u) && Reconciles(u) && es[|es| - 1] != HedgeReturned(id, false)
    ensures TakesOwn(es, id, u.readAt, u.ownAt) && u.own == Exec(INITIAL, es[..u.ownAt]).hedgedNet
    ensures es[u.readAt] == Answer(id, Some(u.net))
  {
    var init := es[..|es| - 1];
    assert init[..u.ownAt] == es[..u.ownAt];
    assert forall j :: 0 <= j < |init| ==> es[j] == init[j];
  }

  lemma ContinueRemembers(es: seq<Event>, id: nat, u: Task, t: Task)
    requires es != [] && Remembers(es[..|es| - 1], id, u) && Reconciles(t)
    requires Continues(u, t, es[|es| - 1], id, Exec(INITIAL, es[..|es| - 1]).hedgedNet, |es| - 1)
    ensures Remembers(es, id, t)
  {
    var (init, e) := (es[..|es| - 1], es[|es| - 1]);
    assert forall j :: 0 <= j < |init| ==> es[j] == init[j];
    if !(e == HedgeReturned(id, false) || (u.PositionAnswered? && e == Resume(id))) { TakenBefore(es, id, u); }
  }

  lemma {:induction false} TasksRemember(es: seq<Event>, id: nat)
    requires Legal(INITIAL, es) && id in Exec(INITIAL, es).tasks
    ensures Remembers(es, id, Exec(INITIAL, es).tasks[id])
  {
    if es != [] {
      var (init, e) := (es[..|es| - 1], es[|es| - 1]);
      var (s, t) := (Exec(INITIAL, init), Exec(INITIAL, es).tasks[id]);
      RunExplained(init);
      TaskAfter(s, e, id);
      if id in s.tasks {
        TasksRemember(init, id);
        if Reconciles(t) { ContinueRemembers(es, id, s.tasks[id], t); }
        if t.PositionAnswered? && s.tasks[id] == t && e != Resume(id) { RememberRead(es, id, t); }
      }
    }
  }

  /** What the comparison decides from the two numbers it holds. */
  lemma ComparedSends(s: State, id: nat, book: bool, difference: int)
    requires id in s.tasks && s.tasks[id].Scanning? && s.tasks[id].net - s.tasks[id].own == difference
    ensures Step(s, Compare(id, book)).flattens ==
      if !s.latched && book && difference != 0 then s.flattens + [difference] else s.flattens
  {}

  /** What the position answered in state a and hedged_net taken in state b differ by: what the answer got
      wrong, what is not the probe's, and what was outstanding in a, less what was booked in between. */
  ghost function Unexplained(a: State, b: State, net: int): int {
    (net - a.pos) + a.foreign + Owed(a.orders) - (b.hedgedNet - a.hedgedNet)
  }

  lemma UnexplainedIs(a: State, b: State, net: int)
    requires Explained(a)
    ensures Unexplained(a, b, net) == net - b.hedgedNet
  {}

  /** What a reconciling task compares, in terms of its two moments of the run. */
  lemma {:induction false} DifferenceTold(es: seq<Event>, id: nat)
    requires Legal(INITIAL, es) && id in Exec(INITIAL, es).tasks && Exec(INITIAL, es).tasks[id].Scanning?
    ensures var r := Exec(INITIAL, es).tasks[id];
      && r.readAt < |es| && es[r.readAt] == Answer(id, Some(r.net)) && TakesOwn(es, id, r.readAt, r.ownAt)
      && r.net - r.own == Unexplained(Exec(INITIAL, es[..r.readAt]), Exec(INITIAL, es[..r.ownAt]), r.net)
  {
    TasksRemember(es, id);
    RememberedDifference(es, id, Exec(INITIAL, es).tasks[id]);
  }

  lemma {:induction false} PrefixExplained(es: seq<Event>, n: nat)
    requires Legal(INITIAL, es) && n <= |es|
    ensures Explained(Exec(INITIAL, es[..n]))
  {
    LegalPrefix(es, n);
    RunExplained(es[..n]);
  }

  lemma {:induction false} RememberedDifference(es: seq<Event>, id: nat, r: Task)
    requires Legal(INITIAL, es) && r.Scanning? && Remembers(es, id, r)
    ensures r.net - r.own == Unexplained(Exec(INITIAL, es[..r.readAt]), Exec(INITIAL, es[..r.ownAt]), r.net)
  {
    PrefixExplained(es, r.readAt);
    UnexplainedIs(Exec(INITIAL, es[..r.readAt]), Exec(INITIAL, es[..r.ownAt]), r.net);
  }

  /** Exactly when reconciliation flattens. Its position was answered at one moment of the run and hedged_net
      last taken at a later one. A flatten order is sent if and only if none was decided before, there is a book, and
      the two moments leave something unexplained; and it is for that. */
  lemma {:induction false} FlattensExactly(es: seq<Event>, id: nat, book: bool)
    requires Legal(INITIAL, es) && id in Exec(INITIAL, es).tasks && Exec(INITIAL, es).tasks[id].Scanning?
    ensures var (s, t) := (Exec(INITIAL, es), Step(Exec(INITIAL, es), Compare(id, book)));
      var r := s.tasks[id];
      && r.readAt < |es| && es[r.readAt] == Answer(id, Some(r.net)) && TakesOwn(es, id, r.readAt, r.ownAt)
      && var difference := Unexplained(Exec(INITIAL, es[..r.readAt]), Exec(INITIAL, es[..r.ownAt]), r.net);
         t.flattens == if !s.latched && book && difference != 0 then s.flattens + [difference] else s.flattens
  {
    DifferenceTold(es, id);
    var s := Exec(INITIAL, es);
    var r := s.tasks[id];
    ComparedSends(s, id, book, Unexplained(Exec(INITIAL, es[..r.readAt]), Exec(INITIAL, es[..r.ownAt]), r.net));
  }

  lemma {:induction false} LegalPrefix(es: seq<Event>, n: nat)
    requires Legal(INITIAL, es) && n <= |es|
    ensures Legal(INITIAL, es[..n])
  {
    if n < |es| {
      LegalPrefix(es[..|es| - 1], n);
      assert es[..|es| - 1][..n] == es[..n];
    } else {
      assert es[..n] == es;
    }
  }

  /** No run flattens a pair twice. */
  lemma {:induction false} FlattensOnce(es: seq<Event>)
    ensures var s := Exec(INITIAL, es); |s.flattens| <= 1 && (!s.latched ==> s.flattens == [])
  {
    if es != [] { FlattensOnce(es[..|es| - 1]); }
  }

  /** The latch is final: nothing is flattened after it, also when the one decision found no book and, as the
      program prints, was to be retried. */
  lemma {:induction false} LatchIsFinal(s: State, es: seq<Event>)
    requires s.latched
    ensures Exec(s, es).latched && Exec(s, es).flattens == s.flattens
  {
    if es != [] { LatchIsFinal(s, es[..|es| - 1]); }
  }

  lemma LegalAppend(s: State, es: seq<Event>, e: Event)
    requires Legal(s, es) && Possible(Exec(s, es), e)
    ensures Legal(s, es + [e]) && Exec(s, es + [e]) == Step(Exec(s, es), e)
  {
    assert (es + [e])[..|es|] == es;
  }

  lemma AppendTwo(s: State, es: seq<Event>, e: Event, f: Event) returns (run: seq<Event>)
    requires Legal(s, es) && Possible(Exec(s, es), e) && Possible(Step(Exec(s, es), e), f)
    ensures Legal(s, run) && Exec(s, run) == Step(Step(Exec(s, es), e), f)
  {
    LegalAppend(s, es, e);
    LegalAppend(s, es + [e], f);
    run := es + [e] + [f];
  }

  const PLACED := Order(true, 0, 0, [], 0, 0, 0, 0, 0, 0)
  const BOUGHT := Order(true, 5, 5, [5], 5, 0, 0, 0, 0, 0)
  const HEDGED := Order(true, 5, 5, [5], 0, 5, 0, 0, 0, 0)

  /** A bid for the pair is placed, fills five and is recognized by the stream. */
  lemma BuyFive(s: State)
    requires s.orders == map[]
    ensures Possible(s, Place("a", true))
    ensures var t := Step(s, Place("a", true));
      t == s.(orders := map["a" := PLACED], now := s.now + 1) && Possible(t, Fill("a", 5))
  {}

  lemma FillFive(s: State)
    requires s.orders == map["a" := PLACED]
    ensures var t := Step(s, Fill("a", 5));
      && t == s.(orders := map["a" := PLACED.(filled := 5)], pos := s.pos + 5, now := s.now + 1)
      && Possible(t, Stream("a", 5))
  {}

  lemma RecognizeFive(s: State)
    requires s.orders == map["a" := PLACED.(filled := 5)]
    ensures Step(s, Stream("a", 5)) == s.(orders := map["a" := BOUGHT], now := s.now + 1)
  {
    assert [] + [5] == [5];
    assert Recognize(PLACED.(filled := 5), 5) == BOUGHT;
  }

  lemma BookFive(s: State)
    requires s.orders == map["a" := BOUGHT]
    ensures Possible(s, Booked("a", 5, 5))
    ensures Step(s, Booked("a", 5, 5)) ==
      s.(orders := map["a" := HEDGED], hedgedNet := s.hedgedNet + 5, now := s.now + 1)
  {}

  lemma BuyFiveRecognized(es: seq<Event>) returns (run: seq<Event>)
    requires Legal(INITIAL, es) && Exec(INITIAL, es).orders == map[]
    ensures Legal(INITIAL, run)
    ensures var (s, t) := (Exec(INITIAL, es), Exec(INITIAL, run));
      t == s.(orders := map["a" := BOUGHT], pos := s.pos + 5, now := s.now + 3)
  {
    var (place, fill, stream) := (Place("a", true), Fill("a", 5), Stream("a", 5));
    var s := Exec(INITIAL, es);
    BuyFive(s);
    LegalAppend(INITIAL, es, place);
    FillFive(Step(s, place));
    LegalAppend(INITIAL, es + [place], fill);
    RecognizeFive(Step(Step(s, place), fill));
    LegalAppend(INITIAL, es + [place] + [fill], stream);
    run := es + [place] + [fill] + [stream];
  }

  lemma AskAndAnswer(s: State, net: int)
    requires 0 !in s.tasks
    ensures Possible(s, StartRecon(0))
    ensures var t := Step(s, StartRecon(0));
      && t == s.(tasks := s.tasks[0 := AskingPosition], now := s.now + 1) && Possible(t, Answer(0, Some(net)))
      && Step(t, Answer(0, Some(net))) ==
        s.(tasks := s.tasks[0 := PositionAnswered(Some(net), s.now + 1)], now := s.now + 2)
  {
    assert s.tasks[0 := AskingPosition][0 := PositionAnswered(Some(net), s.now + 1)]
        == s.tasks[0 := PositionAnswered(Some(net), s.now + 1)];
  }

  lemma ReadPosition(es: seq<Event>, net: int) returns (run: seq<Event>)
    requires Legal(INITIAL, es) && 0 !in Exec(INITIAL, es).tasks
    ensures Legal(INITIAL, run)
    ensures var (s, t) := (Exec(INITIAL, es), Exec(INITIAL, run));
      t == s.(tasks := s.tasks[0 := PositionAnswered(Some(net), s.now + 1)], now := s.now + 2)
  {
    AskAndAnswer(Exec(INITIAL, es), net);
    run := AppendTwo(INITIAL, es, StartRecon(0), Answer(0, Some(net)));
  }

  lemma DecideAtOnce(s: State, net: int, readAt: nat)
    requires 0 in s.tasks && s.tasks[0] == PositionAnswered(Some(net), readAt) && !s.latched && s.flattens == []
    ensures Possible(s, Resume(0)) && Possible(Step(s, Resume(0)), Compare(0, true))
    ensures var t := Step(Step(s, Resume(0)), Compare(0, true));
      t.orders == s.orders && t.pos == s.pos && t.flattens == if net != s.hedgedNet then [net - s.hedgedNet] else []
  {
    assert Step(s, Resume(0)) == WithTask(s, 0, Scanning(net, s.hedgedNet, readAt, s.now)).(now := s.now + 1);
  }

  lemma ResumeAndCompare(es: seq<Event>, net: int, readAt: nat) returns (run: seq<Event>)
    requires Legal(INITIAL, es) && var s := Exec(INITIAL, es);
      0 in s.tasks && s.tasks[0] == PositionAnswered(Some(net), readAt) && !s.latched && s.flattens == []
    ensures Legal(INITIAL, run)
    ensures var (s, t) := (Exec(INITIAL, es), Exec(INITIAL, run));
      t.orders == s.orders && t.pos == s.pos && t.flattens == if net != s.hedgedNet then [net - s.hedgedNet] else []
  {
    DecideAtOnce(Exec(INITIAL, es), net, readAt);
    run := AppendTwo(INITIAL, es, Resume(0), Compare(0, true));
  }

  /** A truthful position read while a hedge is in flight makes reconciliation flatten what is being hedged:
      once the hedge books, the pair is short. */
  lemma {:induction false} FlattensAHedgeInFlight() returns (es: seq<Event>)
    ensures Legal(INITIAL, es)
    ensures var s := Exec(INITIAL, es); s.orders == map["a" := BOUGHT] && s.pos == 5 && s.flattens == [5]
  {
    var bought := BuyFiveRecognized([]);
    var read := ReadPosition(bought, 5);
    es := ResumeAndCompare(read, 5, 4);
  }

  /** A truthful read of a flat pair, followed by a fill that is recognized and completely hedged before the
      comparison, makes it buy the hedged position once more, with nothing outstanding. */
  lemma {:induction false} FlattensAHedgedFill() returns (es: seq<Event>)
    ensures Legal(INITIAL, es)
    ensures var s := Exec(INITIAL, es); s.orders == map["a" := HEDGED] && s.pos == 5 && s.flattens == [-5]
  {
    var read := ReadPosition([], 0);
    var bought := BuyFiveRecognized(read);
    BookFive(Exec(INITIAL, bought));
    LegalAppend(INITIAL, bought, Booked("a", 5, 5));
    es := ResumeAndCompare(bought + [Booked("a", 5, 5)], 0, 1);
  }

  /** And a fill after the read that is still being hedged goes unnoticed. */
  lemma {:induction false} SilentOnAHedgeInFlight() returns (es: seq<Event>)
    ensures Legal(INITIAL, es)
    ensures var s := Exec(INITIAL, es); s.orders == map["a" := BOUGHT] && s.pos == 5 && s.flattens == []
  {
    var read := ReadPosition([], 0);
    var bought := BuyFiveRecognized(read);
    es := ResumeAndCompare(bought, 0, 1);
  }

  // ---------- the hedge loop ----------

  /** One attempt: no usable book, an order that raised, or an order priced px reported filled. */
  datatype Attempt = NoBook | Raised | Placed(px: real, filled: int)

  const ATTEMPTS := 6

  /** What the first n attempts hedge; attempts after a complete hedge are never made. */
  function HedgedBy(qty: int, attempts: seq<Attempt>, n: nat): int
    requires n <= |attempts|
  {
    if n == 0 then 0
    else
      var before := HedgedBy(qty, attempts, n - 1);
      if before >= qty || !attempts[n - 1].Placed? then before else before + attempts[n - 1].filled
  }

  function Paid(qty: int, attempts: seq<Attempt>, n: nat): real
    requires n <= |attempts|
  {
    if n == 0 then 0.0
    else
      var a := attempts[n - 1];
      if HedgedBy(qty, attempts, n - 1) >= qty || !a.Placed? then Paid(qty, attempts, n - 1)
      else Paid(qty, attempts, n - 1) + a.px * a.filled as real
  }

  /** Each order asks for what is still missing and its report never exceeds what was asked. */
  ghost predicate ReportsBounded(qty: int, attempts: seq<Attempt>) {
    forall i :: 0 <= i < |attempts| && attempts[i].Placed? ==>
      0 <= attempts[i].filled && (HedgedBy(qty, attempts, i) < qty ==> HedgedBy(qty, attempts, i + 1) <= qty)
  }

  lemma {:induction false} DoneStaysDone(qty: int, attempts: seq<Attempt>, i: nat, n: nat)
    requires i <= n <= |attempts| && HedgedBy(qty, attempts, i) >= qty
    ensures HedgedBy(qty, attempts, n) == HedgedBy(qty, attempts, i)
    ensures Paid(qty, attempts, n) == Paid(qty, attempts, i)
  {
    if i < n { DoneStaysDone(qty, attempts, i, n - 1); }
  }

  lemma WeightedAverage(avg: real, n: real, px: real, f: real)
    requires n + f != 0.0
    ensures (avg * n + px * f) / (n + f) * (n + f) == avg * n + px * f
  {}

  /** Average times quantity: what the hedge has paid. */
  predicate Prices(avg: real, n: int, paid: real) {
    avg * n as real == paid
  }

  function NewAverage(avg: real, n: int, px: real, f: int): real
    requires n + f != 0
  {
    (avg * n as real + px * f as real) / (n as real + f as real)
  }

  lemma NewAveragePrices(avg: real, n: int, qty: int, attempts: seq<Attempt>, i: nat)
    requires i < |attempts| && attempts[i].Placed? && n == HedgedBy(qty, attempts, i) < qty
    requires n + attempts[i].filled > 0
    requires Prices(avg, n, Paid(qty, attempts, i))
    ensures Prices(NewAverage(avg, n, attempts[i].px, attempts[i].filled), n + attempts[i].filled,
      Paid(qty, attempts, i + 1))
  {
    var f, px := attempts[i].filled, attempts[i].px;
    WeightedAverage(avg, n as real, px, f as real);
    assert (n + f) as real == n as real + f as real;
    assert Paid(qty, attempts, i + 1) == Paid(qty, attempts, i) + px * f as real;
  }

  lemma NothingPaid(qty: int, attempts: seq<Attempt>, i: nat)
    requires i < |attempts| && (!attempts[i].Placed? || attempts[i].filled == 0)
    ensures Paid(qty, attempts, i + 1) == Paid(qty, attempts, i)
  {}

  /** The hedge never exceeds the quantity it was asked for, counts exactly what was reported, and its
      running average prices exactly what was paid. */
  method HedgeLoop(qty: int, attempts: seq<Attempt>) returns (hedged: int, hpxAvg: real)
    requires qty > 0 && |attempts| == ATTEMPTS && ReportsBounded(qty, attempts)
    ensures 0 <= hedged <= qty
    ensures hedged == HedgedBy(qty, attempts, ATTEMPTS)
    ensures Prices(hpxAvg, hedged, Paid(qty, attempts, ATTEMPTS))
  {
    hedged, hpxAvg := 0, 0.0;
    for i := 0 to ATTEMPTS
      invariant 0 <= hedged < qty
      invariant hedged == HedgedBy(qty, attempts, i)
      invariant Prices(hpxAvg, hedged, Paid(qty, attempts, i))
    {
      var a := attempts[i];
      if !a.Placed? {
        NothingPaid(qty, attempts, i);
        continue;
      }
      var f := a.filled;
      if f == 0 {
        NothingPaid(qty, attempts, i);
      } else {
        NewAveragePrices(hpxAvg, hedged, qty, attempts, i);
        hpxAvg := NewAverage(hpxAvg, hedged, a.px, f);
        hedged := hedged + f;
      }
      if hedged >= qty {
        DoneStaysDone(qty, attempts, i + 1, ATTEMPTS);
        return;
      }
    }
  }

  /** Contracts the venue filled that the reads after each order did not show. truth[i] is what order i
      really filled. */
  function Missed(qty: int, attempts: seq<Attempt>, truth: seq<int>, n: nat): int
    requires n <= |attempts| == |truth|
  {
    if n == 0 then 0
    else
      var a := attempts[n - 1];
      Missed(qty, attempts, truth, n - 1)
      + if HedgedBy(qty, attempts, n - 1) >= qty || a.NoBook? then 0
        else truth[n - 1] - (if a.Placed? then a.filled else 0)
  }

  /** What the hedge orders really filled. */
  function ReallyHedged(qty: int, attempts: seq<Attempt>, truth: seq<int>, n: nat): int
    requires n <= |attempts| == |truth|
  {
    if n == 0 then 0
    else
      var a := attempts[n - 1];
      ReallyHedged(qty, attempts, truth, n - 1)
      + if HedgedBy(qty, attempts, n - 1) >= qty || a.NoBook? then 0 else truth[n - 1]
  }

  /** The loop trusts the one read after each order, and counts nothing for an order that raised: what was
      really hedged exceeds its count by exactly the fills it missed, so the count is right if and only if no
      read was early and no raising order filled. */
  lemma {:induction false} CountIsRightIff(qty: int, attempts: seq<Attempt>, truth: seq<int>, n: nat)
    requires n <= |attempts| == |truth|
    requires forall i :: 0 <= i < n ==> 0 <= truth[i] && (attempts[i].Placed? ==> attempts[i].filled <= truth[i])
    ensures ReallyHedged(qty, attempts, truth, n) == HedgedBy(qty, attempts, n) + Missed(qty, attempts, truth, n)
    ensures Missed(qty, attempts, truth, n) >= 0
    ensures ReallyHedged(qty, attempts, truth, n) == HedgedBy(qty, attempts, n) <==>
      forall i :: 0 <= i < n && !attempts[i].NoBook? && HedgedBy(qty, attempts, i) < qty ==>
        truth[i] == if attempts[i].Placed? then attempts[i].filled else 0
  {
    if n > 0 { CountIsRightIff(qty, attempts, truth, n - 1); }
  }

  /** One early read of a complete fill, and the next order hedges the same contracts again. */
  lemma EarlyReadHedgesTwice() returns (attempts: seq<Attempt>, truth: seq<int>)
    ensures |attempts| == |truth| == 2 && ReportsBounded(10, attempts)
    ensures HedgedBy(10, attempts, 2) == 10 && ReallyHedged(10, attempts, truth, 2) == 20
  {
    attempts, truth := [Placed(0.5, 0), Placed(0.5, 10)], [10, 10];
    assert HedgedBy(10, attempts, 0) == 0 && HedgedBy(10, attempts, 1) == 0;
    assert ReallyHedged(10, attempts, truth, 1) == 10;
  }
}
