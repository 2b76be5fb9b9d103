/** Which rows and deferrals an event adds or takes away, exactly and when, in terms of days and minutes. */
module AlertLedger {
  import opened AlertKeys
  import opened AlertRules
  import opened AlertGuarantees

  // ---------------------------------------------------------------- what the limits count

  ghost predicate NotFromFuture(rows: Rows, now: int) {
    forall t :: t in rows ==> rows[t].createdAt <= now
  }

  /** Since the start of the local day means on that day, up to now. */
  lemma SinceDayStart(cfg: Config, at: int, now: int)
    requires at <= now
    ensures at >= DayStart(cfg, now) <==> (at + cfg.offset) / 86_400_000_000 == (now + cfg.offset) / 86_400_000_000
  {
    var a, b := at + cfg.offset, now + cfg.offset;
    assert a == a / DAY * DAY + a % DAY && b == b / DAY * DAY + b % DAY;
  }

  lemma OverseasTodayIs(cfg: Config, rows: Rows, now: int)
    requires NotFromFuture(rows, now)
    ensures OverseasAlertsToday(cfg, rows, now) == |OverseasAlerts(cfg, rows, LocalDay(cfg, now))|
  {
    forall t | t in rows ensures rows[t].createdAt >= DayStart(cfg, now) <==> LocalDay(cfg, rows[t].createdAt) == LocalDay(cfg, now) {
      SinceDayStart(cfg, rows[t].createdAt, now);
    }
    assert (set t | t in rows && rows[t].key.OverseasKey? && rows[t].createdAt >= DayStart(cfg, now))
        == OverseasAlerts(cfg, rows, LocalDay(cfg, now));
  }

  /** The holding alerts of a stock and day, by AI or by keyword. */
  ghost function StockAlerts(cfg: Config, rows: Rows, symbol: string, day: int): set<string> {
    set t | t in rows && rows[t].key.NewsKey? && rows[t].key.symbol == symbol && LocalDay(cfg, rows[t].createdAt) == day
  }

  lemma StockTodayIs(cfg: Config, rows: Rows, now: int, symbol: string)
    requires NotFromFuture(rows, now)
    ensures StockAlertsToday(cfg, rows, now, symbol) == |StockAlerts(cfg, rows, symbol, LocalDay(cfg, now))|
  {
    forall t | t in rows ensures rows[t].createdAt >= DayStart(cfg, now) <==> LocalDay(cfg, rows[t].createdAt) == LocalDay(cfg, now) {
      SinceDayStart(cfg, rows[t].createdAt, now);
    }
    assert (set t | t in rows && rows[t].key.NewsKey? && rows[t].key.symbol == symbol
                    && rows[t].createdAt >= DayStart(cfg, now))
        == StockAlerts(cfg, rows, symbol, LocalDay(cfg, now));
  }

  // ---------------------------------------------------------------- the overseas alert

  /** Impacts add rows of holdings only. */
  lemma {:induction false} ImpactsAddHoldings(cfg: Config, db: Db, now: int, newsId: nat, focus: set<string>, imps: seq<Impact>,
                                              t: string)
    ensures var after := ImpactSteps(cfg, db, now, newsId, focus, imps).rows;
            && (t in db.rows ==> t in after && after[t] == db.rows[t])
            && (t in after && t !in db.rows ==> after[t].key.NewsKey? && KeyText(after[t].key) == t)
  {
    if imps != [] { ImpactsAddHoldings(cfg, db, now, newsId, focus, imps[..|imps| - 1], t); }
  }

  lemma {:induction false} ImpactsKeepOverseas(cfg: Config, db: Db, now: int, newsId: nat, focus: set<string>, imps: seq<Impact>)
    ensures var after := ImpactSteps(cfg, db, now, newsId, focus, imps).rows;
            && OverseasAlertsToday(cfg, after, now) == OverseasAlertsToday(cfg, db.rows, now)
            && (KeyText(OverseasKey(newsId)) in after <==> KeyText(OverseasKey(newsId)) in db.rows)
  {
    var after := ImpactSteps(cfg, db, now, newsId, focus, imps).rows;
    forall t
      ensures t in db.rows ==> t in after && after[t] == db.rows[t]
      ensures t in after && t !in db.rows ==> after[t].key.NewsKey? && KeyText(after[t].key) == t
    {
      ImpactsAddHoldings(cfg, db, now, newsId, focus, imps, t);
    }
    assert (set t | t in after && after[t].key.OverseasKey? && after[t].createdAt >= DayStart(cfg, now))
        == (set t | t in db.rows && db.rows[t].key.OverseasKey? && db.rows[t].createdAt >= DayStart(cfg, now));
    var t := KeyText(OverseasKey(newsId));
    if t in after && t !in db.rows { KeyTextInjective(after[t].key, OverseasKey(newsId)); }
  }

  /** A major overseas item has its alert after its event exactly if it had it before, or the transaction commits
      and the local day had fewer overseas alerts than the limit. The new row is of that instant. */
  lemma {:induction false} OverseasIff(cfg: Config, s: State, e: Event)
    requires e.Impacts? && NotFromFuture(s.db.rows, e.now)
    ensures var t, after := KeyText(OverseasKey(e.newsId)), Apply(cfg, s, e).db.rows;
            && (t in after <==>
                  || t in s.db.rows
                  || (e.tx.Committed? && e.overseasMajor
                      && |OverseasAlerts(cfg, s.db.rows, LocalDay(cfg, e.now))| < cfg.overseasLimit))
            && (t in after && t !in s.db.rows ==> after[t] == Alert(OverseasKey(e.newsId), e.now, true))
  {
    OverseasTodayIs(cfg, s.db.rows, e.now);
    if e.tx.Committed? { ImpactsKeepOverseas(cfg, s.db, e.now, e.newsId, e.focus, e.imps); }
  }

  /** The same in a run: below the limit a major overseas item whose event commits is alerted, for good. */
  lemma {:induction false} OverseasIsAnswered(cfg: Config, s: State, es: seq<Event>, i: nat)
    requires Good(cfg, s.db.rows) && ValidEvents(es) && i < |es| && es[i].Impacts?
    requires es[i].tx.Committed? && es[i].overseasMajor && NotFromFuture(After(cfg, s, es[..i]).db.rows, es[i].now)
    requires |OverseasAlerts(cfg, After(cfg, s, es[..i]).db.rows, LocalDay(cfg, es[i].now))| < cfg.overseasLimit
    ensures KeyText(OverseasKey(es[i].newsId)) in After(cfg, s, es).db.rows
  {
    AfterStep(cfg, s, es, i);
    OverseasIff(cfg, After(cfg, s, es[..i]), es[i]);
    LaterGrows(cfg, s, es, i + 1);
  }

  // ---------------------------------------------------------------- rows of keyword matches

  /** A new row of the keyword rules is of a holding that some match names, made at that instant and not by AI. */
  lemma {:induction false} KeywordRowsPrompted(db: Db, now: int, work: seq<Task>, t: string)
    ensures var after := KeywordWork(db, now, work).rows;
            t in after && t !in db.rows ==>
              exists i :: 0 <= i < |work| && work[i].stock.holding
                          && after[t] == Alert(NewsKey(work[i].newsId, work[i].stock.symbol), now, false)
  {
    if work != [] {
      var n := |work| - 1;
      KeywordRowsPrompted(db, now, work[..n], t);
      var before, after := KeywordWork(db, now, work[..n]).rows, KeywordWork(db, now, work).rows;
      if t in after && t !in db.rows {
        if t in before {
          var i :| 0 <= i < n && work[..n][i].stock.holding
                   && before[t] == Alert(NewsKey(work[..n][i].newsId, work[..n][i].stock.symbol), now, false);
          assert work[i] == work[..n][i];
        } else {
          assert work[n].stock.holding;
        }
      }
    }
  }

  // ---------------------------------------------------------------- deferrals

  /** What a sweep leaves: the items that no verdict has been found on and that have waited less than 15 minutes. */
  lemma {:induction false} WaitingExactly(ds: seq<Deferral>, now: int, handled: set<nat>, d: Deferral)
    ensures d in Waiting(ds, now, handled) <==>
      d in ds && d.newsId !in handled && now - d.deferredAt < 900_000_000
  {
    if ds != [] {
      var n := |ds| - 1;
      WaitingExactly(ds[..n], now, handled, d);
      assert ds == ds[..n] + [ds[n]];
    }
  }

  /** The deferral's item is without a verdict after 15 minutes, and `m` holds its matches. */
  ghost predicate HandsOver(d: Deferral, now: int, handled: set<nat>, matches: nat -> seq<Stock>, m: Match) {
    d.newsId !in handled && now - d.deferredAt >= 900_000_000 && m == Match(d.newsId, matches(d.newsId))
  }

  lemma TimedOutLast(ds: seq<Deferral>, n: nat, now: int, handled: set<nat>, matches: nat -> seq<Stock>, m: Match)
    requires |ds| == n + 1
    ensures m in TimedOut(ds, now, handled, matches) <==>
      m in TimedOut(ds[..n], now, handled, matches) || HandsOver(ds[n], now, handled, matches, m)
  {
  }

  /** What a sweep hands to the keyword rules: the items that no verdict has been found on in 15 minutes. */
  lemma {:induction false} TimedOutExactly(ds: seq<Deferral>, now: int, handled: set<nat>, matches: nat -> seq<Stock>, m: Match)
    ensures m in TimedOut(ds, now, handled, matches) <==> exists d :: d in ds && HandsOver(d, now, handled, matches, m)
  {
    if ds != [] {
      var n := |ds| - 1;
      TimedOutExactly(ds[..n], now, handled, matches, m);
      TimedOutLast(ds, n, now, handled, matches, m);
      assert ds == ds[..n] + [ds[n]];
    }
  }

  /** The item is matched and not known yet, and `d` defers it as of now. */
  ghost predicate Defers(known: seq<Deferral>, now: int, m: Match, d: Deferral) {
    d == Deferral(m.newsId, now) && m.stocks != [] && forall i :: 0 <= i < |known| ==> known[i].newsId != m.newsId
  }

  lemma NewDeferralsLast(known: seq<Deferral>, now: int, items: seq<Match>, n: nat, d: Deferral)
    requires |items| == n + 1
    ensures d in NewDeferrals(known, now, items) <==>
      d in NewDeferrals(known, now, items[..n]) || Defers(known, now, items[n], d)
  {
  }

  /** What a batch adds: the matched items that were not deferred before, as of now. */
  lemma {:induction false} NewDeferralsExactly(known: seq<Deferral>, now: int, items: seq<Match>, d: Deferral)
    ensures d in NewDeferrals(known, now, items) <==> exists m :: m in items && Defers(known, now, m, d)
  {
    if items != [] {
      var n := |items| - 1;
      NewDeferralsExactly(known, now, items[..n], d);
      NewDeferralsLast(known, now, items, n, d);
      assert items == items[..n] + [items[n]];
    }
  }

  /** No item is deferred twice, as the table's primary key demands. */
  ghost predicate OneEach(ds: seq<Deferral>) {
    forall i, j :: 0 <= i < j < |ds| ==> ds[i].newsId != ds[j].newsId
  }

  lemma {:induction false} WaitingOneEach(ds: seq<Deferral>, now: int, handled: set<nat>)
    requires OneEach(ds)
    ensures OneEach(Waiting(ds, now, handled))
    ensures forall i :: 0 <= i < |Waiting(ds, now, handled)| ==> Deferred(ds, Waiting(ds, now, handled)[i].newsId)
  {
    if ds != [] {
      var n := |ds| - 1;
      var w := Waiting(ds[..n], now, handled);
      WaitingOneEach(ds[..n], now, handled);
      forall i | 0 <= i < |w| ensures Deferred(ds, w[i].newsId) && w[i].newsId != ds[n].newsId {
        var k :| 0 <= k < n && ds[..n][k].newsId == w[i].newsId;
        assert ds[k].newsId == w[i].newsId;
      }
      assert Deferred(ds, ds[n].newsId);
    }
  }

  lemma RecordedOneEach(known: seq<Deferral>, now: int, items: seq<Match>)
    requires OneEach(known) && OneEach(NewDeferrals(known, now, items))
    ensures OneEach(known + NewDeferrals(known, now, items))
  {
    var added := NewDeferrals(known, now, items);
    forall i, j | 0 <= i < |known| && 0 <= j < |added| ensures known[i].newsId != added[j].newsId {
      assert added[j] in added;
      NewDeferralsExactly(known, now, items, added[j]);
    }
  }

  /** Whatever happens, an item is deferred at most once. */
  lemma {:induction false} DeferralsStayOneEach(cfg: Config, s: State, es: seq<Event>)
    requires OneEach(s.deferrals)
    ensures OneEach(After(cfg, s, es).deferrals)
  {
    if es != [] {
      var n := |es| - 1;
      DeferralsStayOneEach(cfg, s, es[..n]);
      ApplyOneEach(cfg, After(cfg, s, es[..n]), es[n]);
    }
  }

  lemma {:induction false} ApplyOneEach(cfg: Config, s: State, e: Event)
    requires OneEach(s.deferrals)
    ensures OneEach(Apply(cfg, s, e).deferrals)
  {
    match e
    case DeferBatch(now, items, records, _) =>
      if Recorded(s, now, items, records) { RecordedOneEach(s.deferrals, now, items); }
    case SweepAt(now, handled, _, _, _) => WaitingOneEach(s.deferrals, now, handled);
    case _ =>
  }

  lemma {:induction false} NewOneEach(known: seq<Deferral>, now: int, items: seq<Match>)
    requires forall i, j :: 0 <= i < j < |items| ==> items[i].newsId != items[j].newsId
    ensures OneEach(NewDeferrals(known, now, items))
  {
    if items != [] {
      var n := |items| - 1;
      var added := NewDeferrals(known, now, items[..n]);
      NewOneEach(known, now, items[..n]);
      forall i | 0 <= i < |added| ensures added[i].newsId != items[n].newsId {
        assert added[i] in added;
        NewDeferralsExactly(known, now, items[..n], added[i]);
      }
    }
  }

  /** A batch of different items is deferred if its insert goes through, and handed over if it fails. */
  lemma DeferOutcome(s: State, now: int, items: seq<Match>, records: bool, tx: Tx)
    requires forall i, j :: 0 <= i < j < |items| ==> items[i].newsId != items[j].newsId
    ensures records ==> Defer(s, now, items, records, tx) == s.(deferrals := s.deferrals + NewDeferrals(s.deferrals, now, items))
    ensures !records ==> Defer(s, now, items, records, tx) == s.(db := Fallback(s.db, now, items, tx))
  {
    NewOneEach(s.deferrals, now, items);
  }
}
