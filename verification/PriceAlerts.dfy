/** `on_quotes`: price alerts for holdings, from the batches of a quote feed. */
module PriceAlerts {
  import opened Prelude
  import opened Calendar
  import opened AlertKeys
  import opened AlertRules
  import opened AlertGuarantees
  import opened PriceLiveness

  /** A quote with what the watchlist and the market calendar say of its symbol at that moment. */
  datatype FeedQuote = FeedQuote(symbol: string, holding: bool, open: bool, day: Date,
                                 change: Option<real>, price: Option<real>)

  function Observation(q: FeedQuote): Quote {
    Quote(q.symbol, DayNumber(q.day), q.price)
  }

  /** Only open markets' quotes of holdings with a known change reach the tracker. */
  predicate Observable(q: FeedQuote) {
    q.holding && q.open && q.change.Some?
  }

  function Abs(x: real): real {
    if x < 0.0 then -x else x
  }

  /** A move counts in both directions alike. */
  lemma MovesEitherWay(change: real, threshold: real)
    ensures Abs(change) >= threshold <==> change >= threshold || change <= -threshold
  {
  }

  datatype Desk = Desk(tracker: Tracker, rows: Rows)

  function QuoteStep(d: Desk, threshold: real, now: int, q: FeedQuote): Desk {
    if !Observable(q) then d else
      var (tracker, moving) := Observed(d.tracker, q.symbol, DayNumber(q.day), q.price);
      if !moving || Abs(q.change.value) < threshold then d.(tracker := tracker)
      else Desk(tracker, CreateIfAbsent(d.rows, Alert(PriceKey(q.symbol, q.day), now, false)))
  }

  function QuoteSteps(d: Desk, threshold: real, now: int, qs: seq<FeedQuote>): Desk {
    if qs == [] then d else
      QuoteStep(QuoteSteps(d, threshold, now, qs[..|qs| - 1]), threshold, now, qs[|qs| - 1])
  }

  /** A batch, of which the tracker sees every quote up to a raise, and the table nothing unless it commits. */
  function QuoteBatch(d: Desk, threshold: real, now: int, qs: seq<FeedQuote>, tx: Tx): Desk {
    match tx
    case Committed(_) => QuoteSteps(d, threshold, now, qs)
    case RolledBack(at) => Desk(QuoteSteps(d, threshold, now, Until(qs, at)).tracker, d.rows)
  }

  class QuoteAlerts {
    const threshold: real
    const tracker: PriceTracker
    var rows: Rows

    constructor (threshold: real, tracker: PriceTracker, rows: Rows)
      ensures this.threshold == threshold && this.tracker == tracker && this.rows == rows
    {
      this.threshold, this.tracker, this.rows := threshold, tracker, rows;
    }

    ghost function View(): Desk
      reads this, tracker
    {
      Desk(tracker.View(), rows)
    }

    /** One batch of quotes, whose transaction ends as `tx` says; the result counts the rows added. */
    method OnQuotes(now: int, qs: seq<FeedQuote>, tx: Tx) returns (created: nat, raised: bool)
      modifies this, tracker
      ensures View() == QuoteBatch(old(View()), threshold, now, qs, tx)
      ensures raised == Raises(tx, created) && |rows| == |old(rows)| + created
    {
      created := 0;
      var before := rows;
      var k := 0;
      while k < |qs| && (tx.RolledBack? ==> k < tx.at)
        invariant 0 <= k <= |qs| && View() == QuoteSteps(old(View()), threshold, now, qs[..k])
        invariant |rows| == |old(rows)| + created && (tx.RolledBack? ==> k <= tx.at)
      {
        assert qs[..k + 1][..k] == qs[..k];
        var added := OnQuote(now, qs[k]);
        created := created + added;
        k := k + 1;
      }
      assert qs[..|qs|] == qs;
      if tx.RolledBack? {
        rows := before;
        return 0, true;
      }
      raised := Raises(tx, created);
    }

    method OnQuote(now: int, q: FeedQuote) returns (created: nat)
      modifies this, tracker
      ensures View() == QuoteStep(old(View()), threshold, now, q) && |rows| == |old(rows)| + created
    {
      created := 0;
      if !q.holding || q.change.None? {
        return;
      }
      if !q.open {
        return;
      }
      var moving := tracker.Observe(q.symbol, DayNumber(q.day), q.price);
      if !moving || Abs(q.change.value) < threshold {
        return;
      }
      var alert := Alert(PriceKey(q.symbol, q.day), now, false);
      var key := KeyText(alert.key);
      if key !in rows {
        rows := rows[key := alert];
        created := 1;
      }
    }
  }

  // ---------------------------------------------------------------- all quotes a process sees

  /** A quote that the tracker has seen, with the instant of its batch and whether the batch has committed. */
  datatype Tick = Tick(now: int, quote: FeedQuote, kept: bool)

  function TickStep(d: Desk, threshold: real, t: Tick): Desk {
    var after := QuoteStep(d, threshold, t.now, t.quote);
    if t.kept then after else d.(tracker := after.tracker)
  }

  function AfterTicks(d: Desk, threshold: real, ticks: seq<Tick>): Desk {
    if ticks == [] then d else
      TickStep(AfterTicks(d, threshold, ticks[..|ticks| - 1]), threshold, ticks[|ticks| - 1])
  }

  datatype Batch = Batch(now: int, quotes: seq<FeedQuote>, tx: Tx)

  function AfterBatches(d: Desk, threshold: real, bs: seq<Batch>): Desk {
    if bs == [] then d else
      var b := bs[|bs| - 1];
      QuoteBatch(AfterBatches(d, threshold, bs[..|bs| - 1]), threshold, b.now, b.quotes, b.tx)
  }

  /** The quotes of a batch that the tracker sees. */
  function SeenOf(b: Batch): (r: seq<Tick>)
    ensures forall i :: 0 <= i < |r| ==> i < |b.quotes| && r[i] == Tick(b.now, b.quotes[i], b.tx.Committed?)
  {
    var qs := if b.tx.Committed? then b.quotes else Until(b.quotes, b.tx.at);
    seq(|qs|, i requires 0 <= i < |qs| => Tick(b.now, qs[i], b.tx.Committed?))
  }

  function TicksOf(bs: seq<Batch>): seq<Tick> {
    if bs == [] then [] else TicksOf(bs[..|bs| - 1]) + SeenOf(bs[|bs| - 1])
  }

  lemma {:induction false} TicksConcat(d: Desk, threshold: real, a: seq<Tick>, b: seq<Tick>)
    ensures AfterTicks(d, threshold, a + b) == AfterTicks(AfterTicks(d, threshold, a), threshold, b)
  {
    if b == [] {
      assert a + b == a;
    } else {
      assert (a + b)[..|a + b| - 1] == a + b[..|b| - 1];
      TicksConcat(d, threshold, a, b[..|b| - 1]);
    }
  }

  ghost predicate TicksFrom(ticks: seq<Tick>, now: int, qs: seq<FeedQuote>, kept: bool) {
    |ticks| == |qs| && forall i :: 0 <= i < |ticks| ==> ticks[i] == Tick(now, qs[i], kept)
  }

  /** Quote by quote a batch does what its ticks do. */
  lemma {:induction false} BatchIsTicks(d: Desk, threshold: real, now: int, qs: seq<FeedQuote>, kept: bool, ticks: seq<Tick>)
    requires TicksFrom(ticks, now, qs, kept)
    ensures AfterTicks(d, threshold, ticks).tracker == QuoteSteps(d, threshold, now, qs).tracker
    ensures AfterTicks(d, threshold, ticks).rows == if kept then QuoteSteps(d, threshold, now, qs).rows else d.rows
  {
    if qs != [] {
      var n := |qs| - 1;
      BatchIsTicks(d, threshold, now, qs[..n], kept, ticks[..n]);
    }
  }

  lemma {:induction false} BatchesAreTicks(d: Desk, threshold: real, bs: seq<Batch>)
    ensures AfterBatches(d, threshold, bs) == AfterTicks(d, threshold, TicksOf(bs))
  {
    if bs != [] {
      var n := |bs| - 1;
      var b, before := bs[n], AfterBatches(d, threshold, bs[..n]);
      BatchesAreTicks(d, threshold, bs[..n]);
      BatchIsTicks(before, threshold, b.now, if b.tx.Committed? then b.quotes else Until(b.quotes, b.tx.at),
                   b.tx.Committed?, SeenOf(b));
      TicksConcat(d, threshold, TicksOf(bs[..n]), SeenOf(b));
    }
  }

  /** What the tracker has been shown. */
  function Observations(ticks: seq<Tick>): seq<Quote> {
    if ticks == [] then [] else
      var q := ticks[|ticks| - 1].quote;
      Observations(ticks[..|ticks| - 1]) + if Observable(q) then [Observation(q)] else []
  }

  /** Dates are dates, and the market days of a symbol never go back. */
  ghost predicate FeedOk(ticks: seq<Tick>) {
    (forall i :: 0 <= i < |ticks| ==> ValidDate(ticks[i].quote.day)) && DaysOnward(Observations(ticks))
  }

  /** Tick `i` is a large enough move of a symbol that has shown two prices on its day by then. */
  ghost predicate Triggers(ticks: seq<Tick>, i: nat, threshold: real)
    requires i < |ticks|
  {
    var q := ticks[i].quote;
    && Observable(q) && q.price.Some? && Abs(q.change.value) >= threshold
    && TwoPrices(Observations(ticks[..i + 1]), (q.symbol, DayNumber(q.day)))
  }

  /** Tick `i` triggers for this symbol and day, in a batch that commits. */
  ghost predicate TriggersFor(ticks: seq<Tick>, i: nat, threshold: real, symbol: string, day: Date)
    requires i < |ticks|
  {
    ticks[i].kept && ticks[i].quote.symbol == symbol && ticks[i].quote.day == day && Triggers(ticks, i, threshold)
  }

  ghost predicate Triggered(ticks: seq<Tick>, threshold: real, symbol: string, day: Date) {
    exists i: nat :: i < |ticks| && TriggersFor(ticks, i, threshold, symbol, day)
  }

  function Start(rows: Rows): Desk {
    Desk(Tracker(map[], {}), rows)
  }

  lemma {:induction false} TrackerFollows(rows: Rows, threshold: real, ticks: seq<Tick>)
    ensures AfterTicks(Start(rows), threshold, ticks).tracker == PriceLiveness.After(Observations(ticks))
  {
    if ticks != [] {
      var n := |ticks| - 1;
      TrackerFollows(rows, threshold, ticks[..n]);
      var obs := Observations(ticks[..n]);
      if Observable(ticks[n].quote) {
        assert (obs + [Observation(ticks[n].quote)])[..|obs|] == obs;
      } else {
        assert Observations(ticks) == obs;
      }
    }
  }

  lemma FeedPrefix(ticks: seq<Tick>)
    requires ticks != [] && FeedOk(ticks)
    ensures FeedOk(ticks[..|ticks| - 1])
  {
    var n := |ticks| - 1;
    var obs, all := Observations(ticks[..n]), Observations(ticks);
    assert forall i :: 0 <= i < |obs| ==> all[i] == obs[i];
  }

  /** The tracker's verdict on the last tick. */
  lemma LastVerdict(rows: Rows, threshold: real, ticks: seq<Tick>)
    requires ticks != [] && FeedOk(ticks) && Observable(ticks[|ticks| - 1].quote)
    ensures var n := |ticks| - 1;
            var q := ticks[n].quote;
            Observed(AfterTicks(Start(rows), threshold, ticks[..n]).tracker, q.symbol, DayNumber(q.day), q.price).1
            <==> q.price.Some? && TwoPrices(Observations(ticks), (q.symbol, DayNumber(q.day)))
  {
    var n := |ticks| - 1;
    var obs := Observations(ticks[..n]);
    TrackerFollows(rows, threshold, ticks[..n]);
    assert Observations(ticks) == obs + [Observation(ticks[n].quote)];
    assert (obs + [Observation(ticks[n].quote)])[..|obs|] == obs;
    MovingIffTwoPrices(Observations(ticks));
  }

  /** The row of the last tick is due exactly when the tick triggers, and is there if its batch commits. */
  lemma LastTick(rows: Rows, threshold: real, ticks: seq<Tick>)
    requires ticks != [] && FeedOk(ticks)
    ensures var n := |ticks| - 1;
            var q := ticks[n].quote;
            AfterTicks(Start(rows), threshold, ticks).rows
              == if ticks[n].kept && Triggers(ticks, n, threshold)
                 then CreateIfAbsent(AfterTicks(Start(rows), threshold, ticks[..n]).rows,
                                     Alert(PriceKey(q.symbol, q.day), ticks[n].now, false))
                 else AfterTicks(Start(rows), threshold, ticks[..n]).rows
  {
    var n := |ticks| - 1;
    assert ticks[..n + 1] == ticks;
    if Observable(ticks[n].quote) { LastVerdict(rows, threshold, ticks); }
  }

  lemma TriggeredStep(ticks: seq<Tick>, threshold: real, symbol: string, day: Date)
    requires ticks != []
    ensures var n := |ticks| - 1;
            Triggered(ticks, threshold, symbol, day) <==>
              Triggered(ticks[..n], threshold, symbol, day) || TriggersFor(ticks, n, threshold, symbol, day)
  {
    var n := |ticks| - 1;
    forall i: nat | i < n
      ensures TriggersFor(ticks[..n], i, threshold, symbol, day) == TriggersFor(ticks, i, threshold, symbol, day)
    {
      assert ticks[..n][..i + 1] == ticks[..i + 1];
    }
  }

  lemma {:induction false} TickAlertIff(rows: Rows, threshold: real, ticks: seq<Tick>, symbol: string, day: Date)
    requires RowsOk(rows) && FeedOk(ticks) && ValidDate(day)
    ensures RowsOk(AfterTicks(Start(rows), threshold, ticks).rows)
    ensures KeyText(PriceKey(symbol, day)) in AfterTicks(Start(rows), threshold, ticks).rows
      <==> KeyText(PriceKey(symbol, day)) in rows || Triggered(ticks, threshold, symbol, day)
  {
    if ticks != [] {
      var n := |ticks| - 1;
      var q := ticks[n].quote;
      FeedPrefix(ticks);
      TickAlertIff(rows, threshold, ticks[..n], symbol, day);
      LastTick(rows, threshold, ticks);
      TriggeredStep(ticks, threshold, symbol, day);
      CreateKeepsRowsOk(AfterTicks(Start(rows), threshold, ticks[..n]).rows,
                        Alert(PriceKey(q.symbol, q.day), ticks[n].now, false));
      if KeyText(PriceKey(symbol, day)) == KeyText(PriceKey(q.symbol, q.day)) {
        KeyTextInjective(PriceKey(symbol, day), PriceKey(q.symbol, q.day));
      }
    }
  }

  /** Over all batches of a process: a holding has its price alert of a market day exactly when it had one
      before, or some open-market quote of that day, in a batch that commits, moved by the threshold after the
      day had shown two different prices, be it to batches that failed. The alert is the only one of that symbol
      and day. */
  lemma PriceAlertIff(rows: Rows, threshold: real, bs: seq<Batch>, symbol: string, day: Date)
    requires RowsOk(rows) && FeedOk(TicksOf(bs)) && ValidDate(day)
    ensures var after := AfterBatches(Start(rows), threshold, bs).rows;
            && (KeyText(PriceKey(symbol, day)) in after
                <==> KeyText(PriceKey(symbol, day)) in rows || Triggered(TicksOf(bs), threshold, symbol, day))
            && RowsOk(after) && OneRowPerFact(after)
  {
    BatchesAreTicks(Start(rows), threshold, bs);
    TickAlertIff(rows, threshold, TicksOf(bs), symbol, day);
  }

  /** A batch that fails leaves the table as it was, whatever its quotes trigger. */
  lemma FailedBatchAddsNothing(d: Desk, threshold: real, bs: seq<Batch>, b: Batch)
    requires b.tx.RolledBack?
    ensures AfterBatches(d, threshold, bs + [b]).rows == AfterBatches(d, threshold, bs).rows
  {
    assert (bs + [b])[..|bs|] == bs;
  }

  function HoldingQuote(symbol: string, day: Date, change: real, price: real): FeedQuote {
    FeedQuote(symbol, true, true, day, Some(change), Some(price))
  }

  /** A triggering quote goes without its alert when its batch fails: the second quote of the day shows the
      second price and moves far enough, and the table stays empty. */
  lemma PriceAlertIsLost(threshold: real, symbol: string, day: Date, p: real, q: real, change: real, at: nat)
    requires p != q && Abs(change) >= threshold && at >= 1
    ensures var bs := [Batch(0, [HoldingQuote(symbol, day, change, p)], Committed(true)),
                       Batch(1, [HoldingQuote(symbol, day, change, q)], RolledBack(at))];
            && |TicksOf(bs)| == 2 && Triggers(TicksOf(bs), 1, threshold)
            && AfterBatches(Start(map[]), threshold, bs).rows == map[]
  {
    var a, b := HoldingQuote(symbol, day, change, p), HoldingQuote(symbol, day, change, q);
    var b1, b2 := Batch(0, [a], Committed(true)), Batch(1, [b], RolledBack(at));
    TwoTicks(b1, b2);
    TwoObserved([Tick(0, a, true), Tick(1, b, false)]);
    TwoSeen(Observations([Tick(0, a, true), Tick(1, b, false)][..2]), symbol, DayNumber(day), p, q);
    FirstQuoteAddsNothing(threshold, b1, a);
    FailedBatchAddsNothing(Start(map[]), threshold, [b1], b2);
    assert [b1] + [b2] == [b1, b2];
  }

  lemma TwoTicks(b1: Batch, b2: Batch)
    requires |b1.quotes| == 1 == |b2.quotes| && b1.tx.Committed? && b2.tx.RolledBack? && b2.tx.at >= 1
    ensures TicksOf([b1, b2]) == [Tick(b1.now, b1.quotes[0], true), Tick(b2.now, b2.quotes[0], false)]
  {
    assert [b1, b2][..1] == [b1] && [b1][..0] == [];
    assert TicksOf([b1]) == TicksOf([]) + SeenOf(b1);
    assert TicksOf([b1, b2]) == TicksOf([b1]) + SeenOf(b2);
  }

  lemma TwoSeen(obs: seq<Quote>, symbol: string, day: int, p: real, q: real)
    requires obs == [Quote(symbol, day, Some(p)), Quote(symbol, day, Some(q))] && p != q
    ensures TwoPrices(obs, (symbol, day))
  {
    assert obs[0].price == Some(p) && obs[1].price == Some(q);
    assert Seen(obs, (symbol, day), p) && Seen(obs, (symbol, day), q);
  }

  lemma FirstQuoteAddsNothing(threshold: real, b: Batch, q: FeedQuote)
    requires b.quotes == [q] && b.tx.Committed?
    ensures AfterBatches(Start(map[]), threshold, [b]).rows == map[]
  {
    assert [b][..0] == [] && [q][..0] == [];
    assert AfterBatches(Start(map[]), threshold, []) == Start(map[]);
    assert QuoteSteps(Start(map[]), threshold, b.now, []) == Start(map[]);
  }

  lemma TwoObserved(ticks: seq<Tick>)
    requires |ticks| == 2 && Observable(ticks[0].quote) && Observable(ticks[1].quote)
    ensures Observations(ticks[..2]) == [Observation(ticks[0].quote), Observation(ticks[1].quote)]
  {
    assert ticks[..2] == ticks && ticks[..1][..0] == [];
    assert Observations(ticks[..1]) == [Observation(ticks[0].quote)];
  }
}
