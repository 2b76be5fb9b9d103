/** What the alert rules guarantee over any history of impacts, keyword batches, deferrals and sweeps. */
module AlertGuarantees {
  import opened Prelude
  import opened Arithmetic
  import opened Calendar
  import opened DigestBuffer
  import opened AlertKeys
  import opened AlertRules

  /** What happens to the alert tables. Each handler is one transaction, whose end is part of the event; a sweep
      is two. Price and digest alerts stand for committed ones. */
  datatype Event =
    | Impacts(now: int, newsId: nat, overseasMajor: bool, focus: set<string>, imps: seq<Impact>, tx: Tx)
    | KeywordBatch(now: int, items: seq<Match>, tx: Tx)
    | DeferBatch(now: int, items: seq<Match>, records: bool, tx: Tx)
    | SweepAt(now: int, handled: set<nat>, matches: nat -> seq<Stock>, deletes: bool, tx: Tx)
    | PriceAlert(now: int, symbol: string, day: Date)
    | DigestAlert(now: int, group: Group, startText: string)

  predicate ValidEvent(e: Event) {
    e.PriceAlert? ==> ValidDate(e.day)
  }

  ghost predicate ValidEvents(es: seq<Event>) {
    forall i :: 0 <= i < |es| ==> ValidEvent(es[i])
  }

  function Apply(cfg: Config, s: State, e: Event): State {
    match e
    case Impacts(now, newsId, overseasMajor, focus, imps, tx) =>
      s.(db := HandleImpacts(cfg, s.db, now, newsId, overseasMajor, focus, imps, tx))
    case KeywordBatch(now, items, tx) => s.(db := Fallback(s.db, now, items, tx))
    case DeferBatch(now, items, records, tx) => Defer(s, now, items, records, tx)
    case SweepAt(now, handled, matches, deletes, tx) => Sweep(s, now, handled, matches, deletes, tx)
    case PriceAlert(now, symbol, day) =>
      s.(db := s.db.(rows := CreateIfAbsent(s.db.rows, Alert(PriceKey(symbol, day), now, false))))
    case DigestAlert(now, group, startText) =>
      s.(db := s.db.(rows := CreateIfAbsent(s.db.rows, Alert(DigestKey(group, startText), now, false))))
  }

  function After(cfg: Config, s: State, es: seq<Event>): State {
    if es == [] then s else Apply(cfg, After(cfg, s, es[..|es| - 1]), es[|es| - 1])
  }

  /** Every row stands under the text of its own key. */
  ghost predicate RowsOk(rows: Rows) {
    forall t :: t in rows ==> ValidKey(rows[t].key) && KeyText(rows[t].key) == t
  }

  ghost function AiStockAlerts(cfg: Config, rows: Rows, symbol: string, day: int): set<string> {
    set t | t in rows && rows[t].key.NewsKey? && rows[t].key.symbol == symbol && rows[t].byAi
            && LocalDay(cfg, rows[t].createdAt) == day
  }

  ghost function OverseasAlerts(cfg: Config, rows: Rows, day: int): set<string> {
    set t | t in rows && rows[t].key.OverseasKey? && LocalDay(cfg, rows[t].createdAt) == day
  }

  /** The two daily limits. */
  ghost predicate Limited(cfg: Config, rows: Rows) {
    && (forall symbol, day :: |AiStockAlerts(cfg, rows, symbol, day)| <= AtLeastZero(cfg.stockLimit))
    && (forall day :: |OverseasAlerts(cfg, rows, day)| <= AtLeastZero(cfg.overseasLimit))
  }

  ghost predicate Good(cfg: Config, rows: Rows) {
    RowsOk(rows) && Limited(cfg, rows)
  }

  /** Rows never change or disappear, and taken-in hits stay taken in. */
  ghost predicate Grows(a: Db, b: Db) {
    (forall t :: t in a.rows ==> t in b.rows && b.rows[t] == a.rows[t]) && a.hits <= b.hits
  }

  lemma CreateKeepsRowsOk(rows: Rows, alert: Alert)
    requires RowsOk(rows) && ValidKey(alert.key)
    ensures RowsOk(CreateIfAbsent(rows, alert))
  {
  }

  lemma StockAlertsStay(cfg: Config, rows: Rows, alert: Alert, symbol: string, day: int)
    requires !(alert.key.NewsKey? && alert.byAi && alert.key.symbol == symbol && LocalDay(cfg, alert.createdAt) == day)
    ensures AiStockAlerts(cfg, CreateIfAbsent(rows, alert), symbol, day) == AiStockAlerts(cfg, rows, symbol, day)
  {
  }

  lemma OverseasAlertsStay(cfg: Config, rows: Rows, alert: Alert, day: int)
    requires !(alert.key.OverseasKey? && LocalDay(cfg, alert.createdAt) == day)
    ensures OverseasAlerts(cfg, CreateIfAbsent(rows, alert), day) == OverseasAlerts(cfg, rows, day)
  {
  }

  lemma PlainCreateKeepsGood(cfg: Config, rows: Rows, alert: Alert)
    requires Good(cfg, rows) && ValidKey(alert.key) && !alert.byAi && !alert.key.OverseasKey?
    ensures Good(cfg, CreateIfAbsent(rows, alert))
  {
    CreateKeepsRowsOk(rows, alert);
    forall symbol, day ensures |AiStockAlerts(cfg, CreateIfAbsent(rows, alert), symbol, day)| <= AtLeastZero(cfg.stockLimit) {
      StockAlertsStay(cfg, rows, alert, symbol, day);
    }
    forall day ensures |OverseasAlerts(cfg, CreateIfAbsent(rows, alert), day)| <= AtLeastZero(cfg.overseasLimit) {
      OverseasAlertsStay(cfg, rows, alert, day);
    }
  }

  /** Today's AI alerts of a stock are among those the limit counts, and one insert adds at most one. */
  lemma OneMoreStockAlert(cfg: Config, rows: Rows, now: int, newsId: nat, symbol: string)
    ensures |AiStockAlerts(cfg, CreateIfAbsent(rows, Alert(NewsKey(newsId, symbol), now, true)), symbol, LocalDay(cfg, now))|
         <= StockAlertsToday(cfg, rows, now, symbol) + 1
  {
    var alert := Alert(NewsKey(newsId, symbol), now, true);
    var after := AiStockAlerts(cfg, CreateIfAbsent(rows, alert), symbol, LocalDay(cfg, now));
    var counted := set t | t in rows && rows[t].key.NewsKey? && rows[t].key.symbol == symbol
                           && rows[t].createdAt >= DayStart(cfg, now);
    assert after <= counted + {KeyText(alert.key)};
    SubsetSize(after, counted + {KeyText(alert.key)});
  }

  lemma OneMoreOverseasAlert(cfg: Config, rows: Rows, now: int, newsId: nat)
    ensures |OverseasAlerts(cfg, CreateIfAbsent(rows, Alert(OverseasKey(newsId), now, true)), LocalDay(cfg, now))|
         <= OverseasAlertsToday(cfg, rows, now) + 1
  {
    var alert := Alert(OverseasKey(newsId), now, true);
    var after := OverseasAlerts(cfg, CreateIfAbsent(rows, alert), LocalDay(cfg, now));
    var counted := set t | t in rows && rows[t].key.OverseasKey? && rows[t].createdAt >= DayStart(cfg, now);
    assert after <= counted + {KeyText(alert.key)};
    SubsetSize(after, counted + {KeyText(alert.key)});
  }

  lemma AiCreateKeepsGood(cfg: Config, rows: Rows, now: int, newsId: nat, symbol: string)
    requires Good(cfg, rows) && StockAlertsToday(cfg, rows, now, symbol) < cfg.stockLimit
    ensures Good(cfg, CreateIfAbsent(rows, Alert(NewsKey(newsId, symbol), now, true)))
  {
    var alert := Alert(NewsKey(newsId, symbol), now, true);
    var after := CreateIfAbsent(rows, alert);
    CreateKeepsRowsOk(rows, alert);
    OneMoreStockAlert(cfg, rows, now, newsId, symbol);
    forall s, day ensures |AiStockAlerts(cfg, after, s, day)| <= AtLeastZero(cfg.stockLimit) {
      if s != symbol || day != LocalDay(cfg, now) { StockAlertsStay(cfg, rows, alert, s, day); }
    }
    forall day ensures |OverseasAlerts(cfg, after, day)| <= AtLeastZero(cfg.overseasLimit) {
      OverseasAlertsStay(cfg, rows, alert, day);
    }
  }

  lemma OverseasCreateKeepsGood(cfg: Config, rows: Rows, now: int, newsId: nat)
    requires Good(cfg, rows) && OverseasAlertsToday(cfg, rows, now) < cfg.overseasLimit
    ensures Good(cfg, CreateIfAbsent(rows, Alert(OverseasKey(newsId), now, true)))
  {
    var alert := Alert(OverseasKey(newsId), now, true);
    var after := CreateIfAbsent(rows, alert);
    CreateKeepsRowsOk(rows, alert);
    OneMoreOverseasAlert(cfg, rows, now, newsId);
    forall s, day ensures |AiStockAlerts(cfg, after, s, day)| <= AtLeastZero(cfg.stockLimit) {
      StockAlertsStay(cfg, rows, alert, s, day);
    }
    forall day ensures |OverseasAlerts(cfg, after, day)| <= AtLeastZero(cfg.overseasLimit) {
      if day != LocalDay(cfg, now) { OverseasAlertsStay(cfg, rows, alert, day); }
    }
  }

  lemma OverseasKeepsGood(cfg: Config, db: Db, now: int, newsId: nat, overseasMajor: bool)
    requires Good(cfg, db.rows)
    ensures Good(cfg, OverseasStep(cfg, db, now, newsId, overseasMajor).rows)
    ensures Grows(db, OverseasStep(cfg, db, now, newsId, overseasMajor))
  {
    if OverseasAlertsToday(cfg, db.rows, now) < cfg.overseasLimit {
      OverseasCreateKeepsGood(cfg, db.rows, now, newsId);
    }
  }

  /** The holding alert of this item and stock is in the table. */
  ghost predicate HasNewsRow(rows: Rows, newsId: nat, symbol: string) {
    KeyText(NewsKey(newsId, symbol)) in rows && rows[KeyText(NewsKey(newsId, symbol))].key == NewsKey(newsId, symbol)
  }

  ghost predicate Answered(db: Db, newsId: nat, stock: Stock) {
    HitKey(Watch, newsId, stock.symbol) in db.hits || (stock.holding && HasNewsRow(db.rows, newsId, stock.symbol))
  }

  /** What a significant impact must leave behind. */
  ghost predicate ImpactAnswered(db: Db, newsId: nat, focus: set<string>, imp: Impact) {
    Significant(imp) ==>
      if imp.sector then imp.name in focus ==> HitKey(Sector, newsId, imp.name) in db.hits
      else if imp.stock.Some? then Answered(db, newsId, imp.stock.value)
      else imp.direction.Bullish? && imp.strength.Strong? ==> HitKey(Opportunity, newsId, OpportunityCode(imp)) in db.hits
  }

  lemma CreateLeavesRow(rows: Rows, newsId: nat, symbol: string, now: int, byAi: bool)
    requires RowsOk(rows)
    ensures HasNewsRow(CreateIfAbsent(rows, Alert(NewsKey(newsId, symbol), now, byAi)), newsId, symbol)
  {
    var k := NewsKey(newsId, symbol);
    if KeyText(k) in rows { KeyTextInjective(rows[KeyText(k)].key, k); }
  }

  lemma ImpactStepFacts(cfg: Config, db: Db, now: int, newsId: nat, focus: set<string>, imp: Impact)
    requires Good(cfg, db.rows)
    ensures var after := ImpactStep(cfg, db, now, newsId, focus, imp);
            Good(cfg, after.rows) && Grows(db, after) && ImpactAnswered(after, newsId, focus, imp)
  {
    if Significant(imp) && !imp.sector && imp.stock.Some? {
      var stock := imp.stock.value;
      if stock.holding && StockAlertsToday(cfg, db.rows, now, stock.symbol) < cfg.stockLimit {
        AiCreateKeepsGood(cfg, db.rows, now, newsId, stock.symbol);
        CreateLeavesRow(db.rows, newsId, stock.symbol, now, true);
      }
    }
  }

  lemma {:induction false} ImpactStepsFacts(cfg: Config, db: Db, now: int, newsId: nat, focus: set<string>, imps: seq<Impact>)
    requires Good(cfg, db.rows)
    ensures var after := ImpactSteps(cfg, db, now, newsId, focus, imps);
            Good(cfg, after.rows) && Grows(db, after)
            && forall i :: 0 <= i < |imps| ==> ImpactAnswered(after, newsId, focus, imps[i])
  {
    if imps != [] {
      var n := |imps| - 1;
      var before := ImpactSteps(cfg, db, now, newsId, focus, imps[..n]);
      ImpactStepsFacts(cfg, db, now, newsId, focus, imps[..n]);
      ImpactStepFacts(cfg, before, now, newsId, focus, imps[n]);
      forall i | 0 <= i < n ensures ImpactAnswered(ImpactSteps(cfg, db, now, newsId, focus, imps), newsId, focus, imps[i]) {
        assert imps[..n][i] == imps[i];
      }
    }
  }

  lemma KeywordStepFacts(cfg: Config, db: Db, now: int, t: Task)
    requires Good(cfg, db.rows)
    ensures var after := KeywordStep(db, now, t);
            Good(cfg, after.rows) && Grows(db, after) && Answered(after, t.newsId, t.stock)
  {
    if t.stock.holding {
      PlainCreateKeepsGood(cfg, db.rows, Alert(NewsKey(t.newsId, t.stock.symbol), now, false));
      CreateLeavesRow(db.rows, t.newsId, t.stock.symbol, now, false);
    }
  }

  lemma GrowsOn(a: Db, b: Db, c: Db)
    requires Grows(a, b) && Grows(b, c)
    ensures Grows(a, c)
  {
  }

  ghost predicate AllDone(db: Db, work: seq<Task>) {
    forall i :: 0 <= i < |work| ==> Answered(db, work[i].newsId, work[i].stock)
  }

  lemma DoneStays(a: Db, b: Db, work: seq<Task>)
    requires Grows(a, b) && AllDone(a, work)
    ensures AllDone(b, work)
  {
    forall i | 0 <= i < |work| ensures Answered(b, work[i].newsId, work[i].stock) {
      assert Answered(a, work[i].newsId, work[i].stock);
    }
  }

  lemma {:induction false} KeywordWorkFacts(cfg: Config, db: Db, now: int, work: seq<Task>)
    requires Good(cfg, db.rows)
    ensures var after := KeywordWork(db, now, work);
            Good(cfg, after.rows) && Grows(db, after) && AllDone(after, work)
  {
    if work != [] {
      var n := |work| - 1;
      var before, after := KeywordWork(db, now, work[..n]), KeywordWork(db, now, work);
      KeywordWorkFacts(cfg, db, now, work[..n]);
      KeywordStepFacts(cfg, before, now, work[n]);
      GrowsOn(db, before, after);
      DoneStays(before, after, work[..n]);
      assert work == work[..n] + [work[n]];
    }
  }

  lemma FallbackFacts(cfg: Config, db: Db, now: int, items: seq<Match>, tx: Tx)
    requires Good(cfg, db.rows)
    ensures var after := Fallback(db, now, items, tx);
            Good(cfg, after.rows) && Grows(db, after) && (tx.Committed? ==> AllDone(after, Work(items)))
  {
    KeywordWorkFacts(cfg, db, now, if tx.Committed? then Work(items) else Until(Work(items), tx.at));
  }

  lemma HandleImpactsFacts(cfg: Config, db: Db, now: int, newsId: nat, overseasMajor: bool, focus: set<string>,
                           imps: seq<Impact>, tx: Tx)
    requires Good(cfg, db.rows)
    ensures var after := HandleImpacts(cfg, db, now, newsId, overseasMajor, focus, imps, tx);
            && Good(cfg, after.rows) && Grows(db, after)
            && (tx.Committed? ==> forall i :: 0 <= i < |imps| ==> ImpactAnswered(after, newsId, focus, imps[i]))
  {
    match tx
    case Committed(_) =>
      var before := ImpactSteps(cfg, db, now, newsId, focus, imps);
      ImpactStepsFacts(cfg, db, now, newsId, focus, imps);
      OverseasKeepsGood(cfg, before, now, newsId, overseasMajor);
    case RolledBack(at) =>
      ImpactStepsFacts(cfg, db, now, newsId, focus, Until(imps, at));
  }

  lemma PlainRowFacts(cfg: Config, db: Db, alert: Alert)
    requires Good(cfg, db.rows) && ValidKey(alert.key) && !alert.byAi && !alert.key.OverseasKey?
    ensures var after := db.(rows := CreateIfAbsent(db.rows, alert));
            Good(cfg, after.rows) && Grows(db, after)
  {
    PlainCreateKeepsGood(cfg, db.rows, alert);
  }

  lemma DeferFacts(cfg: Config, s: State, now: int, items: seq<Match>, records: bool, tx: Tx)
    requires Good(cfg, s.db.rows)
    ensures var after := Defer(s, now, items, records, tx);
            Good(cfg, after.db.rows) && Grows(s.db, after.db)
  {
    FallbackFacts(cfg, s.db, now, items, tx);
  }

  lemma SweepFacts(cfg: Config, s: State, now: int, handled: set<nat>, matches: nat -> seq<Stock>, deletes: bool, tx: Tx)
    requires Good(cfg, s.db.rows)
    ensures var after := Sweep(s, now, handled, matches, deletes, tx);
            Good(cfg, after.db.rows) && Grows(s.db, after.db)
  {
    FallbackFacts(cfg, s.db, now, TimedOut(s.deferrals, now, handled, matches), tx);
  }

  lemma ApplyFacts(cfg: Config, s: State, e: Event)
    requires Good(cfg, s.db.rows) && ValidEvent(e)
    ensures Good(cfg, Apply(cfg, s, e).db.rows) && Grows(s.db, Apply(cfg, s, e).db)
  {
    match e
    case Impacts(now, newsId, overseasMajor, focus, imps, tx) =>
      HandleImpactsFacts(cfg, s.db, now, newsId, overseasMajor, focus, imps, tx);
    case KeywordBatch(now, items, tx) => FallbackFacts(cfg, s.db, now, items, tx);
    case DeferBatch(now, items, records, tx) => DeferFacts(cfg, s, now, items, records, tx);
    case SweepAt(now, handled, matches, deletes, tx) => SweepFacts(cfg, s, now, handled, matches, deletes, tx);
    case PriceAlert(now, symbol, day) => PlainRowFacts(cfg, s.db, Alert(PriceKey(symbol, day), now, false));
    case DigestAlert(now, group, startText) => PlainRowFacts(cfg, s.db, Alert(DigestKey(group, startText), now, false));
  }

  /** No news item has two alerts for one stock, nor any other fact two rows. */
  ghost predicate OneRowPerFact(rows: Rows) {
    forall t, u :: t in rows && u in rows && rows[t].key == rows[u].key ==> t == u
  }

  /** In any order of events: a news item has at most one holding alert per stock, and neither daily limit
      is ever exceeded. */
  lemma {:induction false} LimitsHold(cfg: Config, s: State, es: seq<Event>)
    requires Good(cfg, s.db.rows) && ValidEvents(es)
    ensures Good(cfg, After(cfg, s, es).db.rows) && Grows(s.db, After(cfg, s, es).db)
    ensures OneRowPerFact(After(cfg, s, es).db.rows)
  {
    if es != [] {
      var n := |es| - 1;
      LimitsHold(cfg, s, es[..n]);
      ApplyFacts(cfg, After(cfg, s, es[..n]), es[n]);
    }
  }

  lemma {:induction false} LaterGrows(cfg: Config, s: State, es: seq<Event>, i: nat)
    requires Good(cfg, s.db.rows) && ValidEvents(es) && i <= |es|
    ensures Grows(After(cfg, s, es[..i]).db, After(cfg, s, es).db)
    decreases |es|
  {
    if i == |es| {
      assert es[..i] == es;
    } else {
      var n := |es| - 1;
      LaterGrows(cfg, s, es[..n], i);
      assert es[..n][..i] == es[..i];
      LimitsHold(cfg, s, es[..n]);
      ApplyFacts(cfg, After(cfg, s, es[..n]), es[n]);
      GrowsOn(After(cfg, s, es[..i]).db, After(cfg, s, es[..n]).db, After(cfg, s, es).db);
    }
  }

  /** The impact that accounts for a digest hit. */
  predicate PromptsHit(newsId: nat, focus: set<string>, imp: Impact, h: HitKey) {
    && Significant(imp) && h.newsId == newsId
    && match h.group
       case Sector => imp.sector && imp.name == h.symbol && imp.name in focus
       case Watch => !imp.sector && imp.stock.Some? && imp.stock.value.symbol == h.symbol
       case Opportunity =>
         !imp.sector && imp.stock.None? && imp.direction.Bullish? && imp.strength.Strong? && OpportunityCode(imp) == h.symbol
  }

  predicate PromptsRow(newsId: nat, imp: Impact, key: Key) {
    && Significant(imp) && !imp.sector && imp.stock.Some? && imp.stock.value.holding
    && key == NewsKey(newsId, imp.stock.value.symbol)
  }

  /** Nothing comes unprompted: a new hit and a new row each have a significant impact behind them, a row one
      on a holding. */
  lemma {:induction false} NothingUnprompted(cfg: Config, db: Db, now: int, newsId: nat, focus: set<string>, imps: seq<Impact>,
                                             h: HitKey, t: string)
    ensures var after := ImpactSteps(cfg, db, now, newsId, focus, imps);
            && (h in after.hits && h !in db.hits ==> exists i :: 0 <= i < |imps| && PromptsHit(newsId, focus, imps[i], h))
            && (t in after.rows && t !in db.rows ==>
                  exists i :: 0 <= i < |imps| && PromptsRow(newsId, imps[i], after.rows[t].key)
                              && after.rows[t].createdAt == now && after.rows[t].byAi)
  {
    if imps != [] {
      var n := |imps| - 1;
      NothingUnprompted(cfg, db, now, newsId, focus, imps[..n], h, t);
      var before := ImpactSteps(cfg, db, now, newsId, focus, imps[..n]);
      var after := ImpactStep(cfg, before, now, newsId, focus, imps[n]);
      assert h in after.hits && h !in before.hits ==> PromptsHit(newsId, focus, imps[n], h);
      assert t in after.rows && t !in before.rows ==> PromptsRow(newsId, imps[n], after.rows[t].key);
      assert forall i :: 0 <= i < n ==> imps[..n][i] == imps[i];
    }
  }

  lemma AfterStep(cfg: Config, s: State, es: seq<Event>, i: nat)
    requires i < |es|
    ensures After(cfg, s, es[..i + 1]) == Apply(cfg, After(cfg, s, es[..i]), es[i])
  {
    assert es[..i + 1][..i] == es[..i];
  }
}
