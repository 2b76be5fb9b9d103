/** Who is answered: what becomes of each impact and each keyword match when transactions may fail. */
module AlertFates {
  import opened Prelude
  import opened DigestBuffer
  import opened AlertKeys
  import opened AlertRules
  import opened AlertGuarantees

  // ---------------------------------------------------------------- impacts

  /** The hit that an impact leaves when it is not answered by a row. */
  function ExpectedHit(newsId: nat, imp: Impact): HitKey {
    if imp.sector then HitKey(Sector, newsId, imp.name)
    else match imp.stock
      case Some(stock) => HitKey(Watch, newsId, stock.symbol)
      case None => HitKey(Opportunity, newsId, if imp.code == "" then imp.name else imp.code)
  }

  /** Impact `i` goes into the buffer: a followed sector, a strong opportunity, or a watched stock that is no
      holding or has used up its alerts of the day. */
  predicate BuffersHit(cfg: Config, db: Db, now: int, newsId: nat, focus: set<string>, imps: seq<Impact>, i: nat)
    requires i < |imps|
  {
    && Significant(imps[i])
    && if imps[i].sector then imps[i].name in focus
       else match imps[i].stock
         case None => imps[i].direction.Bullish? && imps[i].strength.Strong?
         case Some(stock) =>
           var rows := ImpactSteps(cfg, db, now, newsId, focus, imps[..i]).rows;
           !(stock.holding && StockAlertsToday(cfg, rows, now, stock.symbol) < cfg.stockLimit)
  }

  ghost predicate BufferedIn(cfg: Config, db: Db, now: int, newsId: nat, focus: set<string>, imps: seq<Impact>, h: HitKey) {
    exists i :: 0 <= i < |imps| && BuffersHit(cfg, db, now, newsId, focus, imps, i) && ExpectedHit(newsId, imps[i]) == h
  }

  /** What the last impact adds to the buffer. */
  lemma LastImpactHit(cfg: Config, db: Db, now: int, newsId: nat, focus: set<string>, imps: seq<Impact>, n: nat, h: HitKey)
    requires |imps| == n + 1
    ensures h in ImpactSteps(cfg, db, now, newsId, focus, imps).hits <==>
      || h in ImpactSteps(cfg, db, now, newsId, focus, imps[..n]).hits
      || (BuffersHit(cfg, db, now, newsId, focus, imps, n) && ExpectedHit(newsId, imps[n]) == h)
  {
  }

  lemma BufferedInLast(cfg: Config, db: Db, now: int, newsId: nat, focus: set<string>, imps: seq<Impact>, n: nat, h: HitKey)
    requires |imps| == n + 1
    ensures BufferedIn(cfg, db, now, newsId, focus, imps, h) <==>
      || BufferedIn(cfg, db, now, newsId, focus, imps[..n], h)
      || (BuffersHit(cfg, db, now, newsId, focus, imps, n) && ExpectedHit(newsId, imps[n]) == h)
  {
    forall i | 0 <= i < n
      ensures imps[..n][i] == imps[i]
      ensures BuffersHit(cfg, db, now, newsId, focus, imps[..n], i) == BuffersHit(cfg, db, now, newsId, focus, imps, i)
    {
      assert imps[..n][..i] == imps[..i];
    }
  }

  /** The buffer takes in exactly the hits of the impacts that go there. */
  lemma {:induction false} ImpactHitsExactly(cfg: Config, db: Db, now: int, newsId: nat, focus: set<string>,
                                             imps: seq<Impact>, h: HitKey)
    ensures h in ImpactSteps(cfg, db, now, newsId, focus, imps).hits
      <==> h in db.hits || BufferedIn(cfg, db, now, newsId, focus, imps, h)
  {
    if imps != [] {
      var n := |imps| - 1;
      ImpactHitsExactly(cfg, db, now, newsId, focus, imps[..n], h);
      LastImpactHit(cfg, db, now, newsId, focus, imps, n, h);
      BufferedInLast(cfg, db, now, newsId, focus, imps, n, h);
    }
  }

  /** An impact is answered by its event exactly if the handler's transaction commits, or it was answered before,
      or an impact handled before the failure put the same hit into the buffer. */
  lemma ImpactAnsweredIff(cfg: Config, s: State, e: Event, k: nat)
    requires Good(cfg, s.db.rows) && e.Impacts? && k < |e.imps|
    ensures ImpactAnswered(Apply(cfg, s, e).db, e.newsId, e.focus, e.imps[k]) <==>
      || e.tx.Committed? || ImpactAnswered(s.db, e.newsId, e.focus, e.imps[k])
      || BufferedIn(cfg, s.db, e.now, e.newsId, e.focus, Until(e.imps, e.tx.at), ExpectedHit(e.newsId, e.imps[k]))
  {
    HandleImpactsFacts(cfg, s.db, e.now, e.newsId, e.overseasMajor, e.focus, e.imps, e.tx);
    if e.tx.RolledBack? {
      ImpactHitsExactly(cfg, s.db, e.now, e.newsId, e.focus, Until(e.imps, e.tx.at), ExpectedHit(e.newsId, e.imps[k]));
    }
  }

  lemma ImpactStaysAnswered(a: Db, b: Db, newsId: nat, focus: set<string>, imp: Impact)
    requires Grows(a, b) && ImpactAnswered(a, newsId, focus, imp)
    ensures ImpactAnswered(b, newsId, focus, imp)
  {
  }

  /** Every significant impact whose handler commits is answered, for good: a holding has its alert row or a
      digest hit, every other watched stock, followed sector or strong opportunity has its hit. */
  lemma ImpactsAreAnswered(cfg: Config, s: State, es: seq<Event>, i: nat, k: nat)
    requires Good(cfg, s.db.rows) && ValidEvents(es)
    requires i < |es| && es[i].Impacts? && es[i].tx.Committed? && k < |es[i].imps|
    ensures ImpactAnswered(After(cfg, s, es).db, es[i].newsId, es[i].focus, es[i].imps[k])
  {
    LimitsHold(cfg, s, es[..i]);
    AfterStep(cfg, s, es, i);
    ImpactAnsweredIff(cfg, After(cfg, s, es[..i]), es[i], k);
    LaterGrows(cfg, s, es, i + 1);
    ImpactStaysAnswered(After(cfg, s, es[..i + 1]).db, After(cfg, s, es).db, es[i].newsId, es[i].focus, es[i].imps[k]);
  }

  lemma NoAlertsYet(cfg: Config, now: int, symbol: string)
    ensures StockAlertsToday(cfg, map[], now, symbol) == 0
  {
    var rows: Rows := map[];
    assert (set t | t in rows && rows[t].key.NewsKey? && rows[t].key.symbol == symbol
                    && rows[t].createdAt >= DayStart(cfg, now)) == {};
  }

  /** A holding's alert is lost when the handler's transaction fails, wherever it does: the event leaves no
      trace, and no other event is due for the item. */
  lemma ImpactIsLost(cfg: Config, now: int, newsId: nat, focus: set<string>, imp: Impact, at: nat)
    requires Significant(imp) && !imp.sector && imp.stock.Some? && imp.stock.value.holding && cfg.stockLimit > 0
    ensures var s := State(Db(map[], {}), []);
            && Apply(cfg, s, Impacts(now, newsId, false, focus, [imp], RolledBack(at))) == s
            && !ImpactAnswered(s.db, newsId, focus, imp)
  {
    var db := Db(map[], {});
    var imps := Until([imp], at);
    NoAlertsYet(cfg, now, imp.stock.value.symbol);
    forall i | 0 <= i < |imps| ensures !BuffersHit(cfg, db, now, newsId, focus, imps, i) {
      assert imps[..i] == [];
    }
    var hits := ImpactSteps(cfg, db, now, newsId, focus, imps).hits;
    forall h ensures h !in hits {
      ImpactHitsExactly(cfg, db, now, newsId, focus, imps, h);
    }
    assert hits == {};
  }

  // ---------------------------------------------------------------- keyword matches

  /** The matches an event hands to the keyword rules. */
  function KeywordTasks(s: State, e: Event): seq<Task> {
    match e
    case KeywordBatch(now, items, _) => Work(items)
    case DeferBatch(now, items, records, _) => if Recorded(s, now, items, records) then [] else Work(items)
    case SweepAt(now, handled, matches, deletes, _) =>
      if deletes then Work(TimedOut(s.deferrals, now, handled, matches)) else []
    case _ => []
  }

  function TxOf(e: Event): Tx {
    match e
    case Impacts(_, _, _, _, _, tx) => tx
    case KeywordBatch(_, _, tx) => tx
    case DeferBatch(_, _, _, tx) => tx
    case SweepAt(_, _, _, _, tx) => tx
    case _ => Committed(true)
  }

  ghost predicate BufferedBy(work: seq<Task>, h: HitKey) {
    exists i :: 0 <= i < |work| && !work[i].stock.holding && h == HitKey(Watch, work[i].newsId, work[i].stock.symbol)
  }

  lemma BufferedLast(work: seq<Task>, n: nat, h: HitKey)
    requires |work| == n + 1
    ensures BufferedBy(work, h) <==> BufferedBy(work[..n], h) || BufferedBy([work[n]], h)
  {
    if BufferedBy(work[..n], h) {
      var i :| 0 <= i < n && !work[..n][i].stock.holding && h == HitKey(Watch, work[..n][i].newsId, work[..n][i].stock.symbol);
      assert work[i] == work[..n][i];
    }
    if BufferedBy([work[n]], h) { assert [work[n]][0] == work[n]; }
    if BufferedBy(work, h) {
      var i :| 0 <= i < |work| && !work[i].stock.holding && h == HitKey(Watch, work[i].newsId, work[i].stock.symbol);
      if i < n { assert work[..n][i] == work[i]; } else { assert [work[n]][0] == work[i]; }
    }
  }

  lemma KeywordStepHits(db: Db, now: int, t: Task, h: HitKey)
    ensures h in KeywordStep(db, now, t).hits <==> h in db.hits || BufferedBy([t], h)
  {
    assert [t][0] == t;
  }

  lemma {:induction false} KeywordHitsExactly(db: Db, now: int, work: seq<Task>, h: HitKey)
    ensures h in KeywordWork(db, now, work).hits <==> h in db.hits || BufferedBy(work, h)
  {
    if work != [] {
      var n := |work| - 1;
      KeywordHitsExactly(db, now, work[..n], h);
      BufferedLast(work, n, h);
      KeywordStepHits(KeywordWork(db, now, work[..n]), now, work[n], h);
    }
  }

  /** A match that an event hands to the keyword rules is answered by it exactly if the rules' transaction
      commits, or it was answered before, or its hit went into the buffer before the failure. A holding's
      match has no hit to go there: it is lost exactly when the transaction does not commit. */
  lemma TaskAnsweredIff(cfg: Config, s: State, e: Event, t: Task)
    requires Good(cfg, s.db.rows) && t in KeywordTasks(s, e)
    ensures Answered(Apply(cfg, s, e).db, t.newsId, t.stock) <==>
      || TxOf(e).Committed? || Answered(s.db, t.newsId, t.stock)
      || BufferedBy(Until(KeywordTasks(s, e), TxOf(e).at), HitKey(Watch, t.newsId, t.stock.symbol))
  {
    var work := KeywordTasks(s, e);
    if TxOf(e).Committed? {
      KeywordWorkFacts(cfg, s.db, e.now, work);
    } else {
      KeywordHitsExactly(s.db, e.now, Until(work, TxOf(e).at), HitKey(Watch, t.newsId, t.stock.symbol));
    }
  }

  /** The same in a run, where an answer is for good. */
  lemma TaskFate(cfg: Config, s: State, es: seq<Event>, j: nat, t: Task)
    requires Good(cfg, s.db.rows) && ValidEvents(es) && j < |es|
    requires t in KeywordTasks(After(cfg, s, es[..j]), es[j])
    ensures var before := After(cfg, s, es[..j]);
            Answered(After(cfg, s, es[..j + 1]).db, t.newsId, t.stock) <==>
              || TxOf(es[j]).Committed? || Answered(before.db, t.newsId, t.stock)
              || BufferedBy(Until(KeywordTasks(before, es[j]), TxOf(es[j]).at), HitKey(Watch, t.newsId, t.stock.symbol))
    ensures Answered(After(cfg, s, es[..j + 1]).db, t.newsId, t.stock) ==> Answered(After(cfg, s, es).db, t.newsId, t.stock)
  {
    LimitsHold(cfg, s, es[..j]);
    AfterStep(cfg, s, es, j);
    TaskAnsweredIff(cfg, After(cfg, s, es[..j]), es[j], t);
    LaterGrows(cfg, s, es, j + 1);
  }

  // ---------------------------------------------------------------- deferred items

  /** The event hands all these matches of the item to the keyword rules. */
  ghost predicate HandedOver(s: State, e: Event, id: nat, stocks: seq<Stock>) {
    forall i :: 0 <= i < |stocks| ==> Task(id, stocks[i]) in KeywordTasks(s, e)
  }

  lemma {:induction false} WorkHas(items: seq<Match>, m: Match, i: nat)
    requires m in items && i < |m.stocks|
    ensures Task(m.newsId, m.stocks[i]) in Work(items)
  {
    var n := |items| - 1;
    if items[n] == m {
      assert Tasks(m)[i] in Tasks(m);
    } else {
      assert items == items[..n] + [items[n]];
      WorkHas(items[..n], m, i);
    }
  }

  lemma {:induction false} TimedOutHas(ds: seq<Deferral>, now: int, handled: set<nat>, matches: nat -> seq<Stock>, id: nat)
    requires Deferred(ds, id) && id !in handled
    ensures Deferred(Waiting(ds, now, handled), id) || Match(id, matches(id)) in TimedOut(ds, now, handled, matches)
  {
    var n := |ds| - 1;
    var w, t := Waiting(ds, now, handled), TimedOut(ds, now, handled, matches);
    if ds[n].newsId == id {
      if !Expired(ds[n], now) { assert w[|w| - 1] == ds[n]; }
    } else {
      assert Deferred(ds[..n], id) by {
        var i :| 0 <= i < |ds| && ds[i].newsId == id;
        assert ds[..n][i].newsId == id;
      }
      TimedOutHas(ds[..n], now, handled, matches, id);
      var w0 := Waiting(ds[..n], now, handled);
      if Deferred(w0, id) {
        var i :| 0 <= i < |w0| && w0[i].newsId == id;
        assert w[i].newsId == id;
      }
    }
  }

  /** The fate of a deferred item: it still waits, or a sweep found the AI's verdict on it, or a sweep ran out
      of patience and handed all its matches to the keyword rules. */
  ghost predicate Settled(cfg: Config, s: State, es: seq<Event>, from: nat, id: nat) {
    || Deferred(After(cfg, s, es).deferrals, id)
    || exists j :: from <= j < |es| && SettledBy(cfg, s, es, j, id)
  }

  ghost predicate SettledBy(cfg: Config, s: State, es: seq<Event>, j: nat, id: nat)
    requires j < |es|
  {
    && es[j].SweepAt? && es[j].deletes
    && (id in es[j].handled || HandedOver(After(cfg, s, es[..j]), es[j], id, es[j].matches(id)))
  }

  lemma DeferralStep(cfg: Config, s: State, e: Event, id: nat)
    requires Deferred(s.deferrals, id)
    ensures || Deferred(Apply(cfg, s, e).deferrals, id)
            || (e.SweepAt? && e.deletes && (id in e.handled || HandedOver(s, e, id, e.matches(id))))
  {
    var i :| 0 <= i < |s.deferrals| && s.deferrals[i].newsId == id;
    match e
    case SweepAt(now, handled, matches, deletes, _) =>
      if deletes && id !in handled {
        TimedOutHas(s.deferrals, now, handled, matches, id);
        if !Deferred(Waiting(s.deferrals, now, handled), id) {
          forall i | 0 <= i < |matches(id)| ensures Task(id, matches(id)[i]) in KeywordTasks(s, e) {
            WorkHas(TimedOut(s.deferrals, now, handled, matches), Match(id, matches(id)), i);
          }
        }
      }
    case DeferBatch(now, items, _, _) =>
      assert Apply(cfg, s, e).deferrals[i].newsId == id;
    case _ =>
      assert Apply(cfg, s, e).deferrals == s.deferrals;
  }

  lemma SettledEarlier(cfg: Config, s: State, es: seq<Event>, n: nat, j: nat, id: nat)
    requires j < n <= |es| && SettledBy(cfg, s, es[..n], j, id)
    ensures SettledBy(cfg, s, es, j, id)
  {
    assert es[..n][j] == es[j] && es[..n][..j] == es[..j];
  }

  lemma DeferredOneMore(cfg: Config, s: State, es: seq<Event>, n: nat, id: nat)
    requires |es| == n + 1 && Deferred(After(cfg, s, es[..n]).deferrals, id)
    ensures Deferred(After(cfg, s, es).deferrals, id) || SettledBy(cfg, s, es, n, id)
  {
    DeferralStep(cfg, After(cfg, s, es[..n]), es[n], id);
  }

  lemma {:induction false} DeferralsSettle(cfg: Config, s: State, es: seq<Event>, from: nat, id: nat)
    requires from <= |es| && Deferred(After(cfg, s, es[..from]).deferrals, id)
    ensures Settled(cfg, s, es, from, id)
    decreases |es|
  {
    if from == |es| {
      assert es[..from] == es;
      return;
    }
    var n := |es| - 1;
    assert es[..n][..from] == es[..from];
    DeferralsSettle(cfg, s, es[..n], from, id);
    if Deferred(After(cfg, s, es[..n]).deferrals, id) {
      DeferredOneMore(cfg, s, es, n, id);
    } else {
      var j :| from <= j < n && SettledBy(cfg, s, es[..n], j, id);
      SettledEarlier(cfg, s, es, n, j, id);
    }
  }

  lemma {:induction false} MatchedIsDeferred(known: seq<Deferral>, now: int, items: seq<Match>, i: nat)
    requires i < |items| && items[i].stocks != []
    ensures Deferred(known + NewDeferrals(known, now, items), items[i].newsId)
  {
    var n := |items| - 1;
    var all := known + NewDeferrals(known, now, items);
    if Deferred(known, items[i].newsId) {
      var k :| 0 <= k < |known| && known[k].newsId == items[i].newsId;
      assert all[k].newsId == items[i].newsId;
    } else if i == n {
      assert all[|all| - 1].newsId == items[i].newsId;
    } else {
      MatchedIsDeferred(known, now, items[..n], i);
      assert items[..n][i] == items[i];
      var part := known + NewDeferrals(known, now, items[..n]);
      var k :| 0 <= k < |part| && part[k].newsId == items[i].newsId;
      assert all[k].newsId == items[i].newsId;
    }
  }

  /** A keyword match that arrives in AI mode is handed to the keyword rules at once, or deferred with the fate
      of a deferred item. */
  lemma MatchFate(cfg: Config, s: State, es: seq<Event>, i: nat, k: nat)
    requires i < |es| && es[i].DeferBatch? && k < |es[i].items| && es[i].items[k].stocks != []
    ensures var m := es[i].items[k];
            || HandedOver(After(cfg, s, es[..i]), es[i], m.newsId, m.stocks)
            || Settled(cfg, s, es, i + 1, m.newsId)
  {
    var before, items := After(cfg, s, es[..i]), es[i].items;
    AfterStep(cfg, s, es, i);
    if Recorded(before, es[i].now, items, es[i].records) {
      MatchedIsDeferred(before.deferrals, es[i].now, items, k);
      DeferralsSettle(cfg, s, es, i + 1, items[k].newsId);
    } else {
      forall j | 0 <= j < |items[k].stocks| ensures Task(items[k].newsId, items[k].stocks[j]) in KeywordTasks(before, es[i]) {
        WorkHas(items, items[k], j);
      }
    }
  }

  ghost predicate AllAnswered(db: Db, newsId: nat, stocks: seq<Stock>) {
    forall i :: 0 <= i < |stocks| ==> Answered(db, newsId, stocks[i])
  }

  /** So no match is dropped as long as the transactions commit: what an event hands over is answered for good
      if the event's transaction commits. */
  lemma CommittedIsAnswered(cfg: Config, s: State, es: seq<Event>, j: nat, id: nat, stocks: seq<Stock>)
    requires Good(cfg, s.db.rows) && ValidEvents(es) && j < |es| && TxOf(es[j]).Committed?
    requires HandedOver(After(cfg, s, es[..j]), es[j], id, stocks)
    ensures AllAnswered(After(cfg, s, es).db, id, stocks)
  {
    forall i | 0 <= i < |stocks| ensures Answered(After(cfg, s, es).db, id, stocks[i]) {
      TaskFate(cfg, s, es, j, Task(id, stocks[i]));
    }
  }

  lemma {:induction false} HoldingsLeaveNoHits(db: Db, now: int, work: seq<Task>)
    requires forall i :: 0 <= i < |work| ==> work[i].stock.holding
    ensures KeywordWork(db, now, work).hits == db.hits
  {
    if work != [] { HoldingsLeaveNoHits(db, now, work[..|work| - 1]); }
  }

  /** A failed transaction over matches of holdings changes nothing at all. */
  lemma NoTrace(cfg: Config, s: State, e: Event)
    requires TxOf(e).RolledBack? && !e.Impacts?
    requires forall t :: t in KeywordTasks(s, e) ==> t.stock.holding
    ensures Apply(cfg, s, e).db == s.db
  {
    var work := KeywordTasks(s, e);
    var part := Until(work, TxOf(e).at);
    assert forall i :: 0 <= i < |part| ==> part[i] == work[i] && work[i] in work;
    HoldingsLeaveNoHits(s.db, e.now, part);
  }

  lemma OneTask(m: Match, stock: Stock)
    requires m.stocks == [stock]
    ensures Work([m]) == [Task(m.newsId, stock)]
  {
    assert [m][..0] == [] && Work([]) == [];
  }

  lemma OneSwept(newsId: nat, matches: nat -> seq<Stock>)
    ensures Waiting([Deferral(newsId, 0)], DEFERRAL_TIMEOUT, {}) == []
    ensures TimedOut([Deferral(newsId, 0)], DEFERRAL_TIMEOUT, {}, matches) == [Match(newsId, matches(newsId))]
  {
    assert [Deferral(newsId, 0)][..0] == [];
  }

  /** The match of a holding is lost when the transaction that answers a timed-out deferral fails after the
      deletion has committed: the sweep leaves no trace of the item. */
  lemma MatchIsLost(cfg: Config, newsId: nat, stock: Stock, matches: nat -> seq<Stock>, at: nat)
    requires stock.holding && matches(newsId) == [stock]
    ensures var none := State(Db(map[], {}), []);
            var deferred := none.(deferrals := [Deferral(newsId, 0)]);
            && Apply(cfg, none, DeferBatch(0, [Match(newsId, [stock])], true, Committed(true))) == deferred
            && Apply(cfg, deferred, SweepAt(DEFERRAL_TIMEOUT, {}, matches, true, RolledBack(at))) == none
            && !Answered(none.db, newsId, stock)
  {
    FirstDeferred(cfg, Match(newsId, [stock]));
    SweptAway(cfg, newsId, stock, matches, at);
  }

  lemma FirstDeferred(cfg: Config, m: Match)
    requires m.stocks != []
    ensures Apply(cfg, State(Db(map[], {}), []), DeferBatch(0, [m], true, Committed(true)))
         == State(Db(map[], {}), [Deferral(m.newsId, 0)])
  {
    assert [m][..0] == [] && NewDeferrals([], 0, [m]) == [Deferral(m.newsId, 0)];
  }

  lemma SweptAway(cfg: Config, newsId: nat, stock: Stock, matches: nat -> seq<Stock>, at: nat)
    requires stock.holding && matches(newsId) == [stock]
    ensures Apply(cfg, State(Db(map[], {}), [Deferral(newsId, 0)]), SweepAt(DEFERRAL_TIMEOUT, {}, matches, true, RolledBack(at)))
         == State(Db(map[], {}), [])
  {
    var deferred := State(Db(map[], {}), [Deferral(newsId, 0)]);
    var e := SweepAt(DEFERRAL_TIMEOUT, {}, matches, true, RolledBack(at));
    OneSwept(newsId, matches);
    OneTask(Match(newsId, matches(newsId)), stock);
    assert KeywordTasks(deferred, e) == [Task(newsId, stock)];
    NoTrace(cfg, deferred, e);
  }
}
