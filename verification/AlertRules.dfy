/** Which news becomes an alert row, which becomes a digest hit, and the limits on the way. The watchlist
    match of a title or an impact is an input; the rules decide what follows from it. */
module AlertRules {
  import opened Prelude
  import opened DigestBuffer
  import opened AlertKeys

  datatype Stock = Stock(symbol: string, holding: bool)

  datatype Direction = Bullish | Bearish | OtherDirection

  datatype Strength = Strong | Medium | OtherStrength

  /** One impact of an analysed item; `stock` is the watchlist entry it names, if any. */
  datatype Impact = Impact(direction: Direction, strength: Strength, sector: bool, name: string,
                           code: string, stock: Option<Stock>)

  /** The stocks whose name or code an item's title carries. */
  datatype Match = Match(newsId: nat, stocks: seq<Stock>)

  /** An alert row; its kind and symbol columns are those of its key. */
  datatype Alert = Alert(key: Key, createdAt: int, byAi: bool)

  type Rows = map<string, Alert>

  /** The alert table and the keys of all hits that the digest buffer has taken in. */
  datatype Db = Db(rows: Rows, hits: set<HitKey>)

  datatype Deferral = Deferral(newsId: nat, deferredAt: int)

  datatype Config = Config(offset: int, stockLimit: int, overseasLimit: int)

  /** How a handler's transaction ends: it commits, and publishing the new rows afterwards may still raise; or
      something raises after `at` steps of the handler's work, and then its rows are rolled back while the hits
      it has put into the buffer stay there. */
  datatype Tx = Committed(publishes: bool) | RolledBack(at: nat)

  /** Whether the handler raises. Publishing has nothing to raise about when no row is new. */
  predicate Raises(tx: Tx, created: int) {
    tx.RolledBack? || (!tx.publishes && created > 0)
  }

  /** A handler that commits raises only if publishing fails and there is something to publish. */
  lemma RaisesIff(tx: Tx, created: nat)
    ensures tx.RolledBack? ==> Raises(tx, created)
    ensures tx == Committed(true) ==> !Raises(tx, created)
    ensures tx == Committed(false) ==> (Raises(tx, created) <==> created != 0)
  {
  }

  const DAY: int := 86_400_000_000
  const DEFERRAL_TIMEOUT: int := 15 * MINUTE

  /** The local calendar day of an instant, in a zone at a fixed offset from UTC. */
  function LocalDay(cfg: Config, t: int): int {
    (t + cfg.offset) / DAY
  }

  function DayStart(cfg: Config, now: int): int {
    LocalDay(cfg, now) * DAY - cfg.offset
  }

  /** Insert by dedupe key, unless the key is there. */
  function CreateIfAbsent(rows: Rows, alert: Alert): Rows {
    if KeyText(alert.key) in rows then rows else rows[KeyText(alert.key) := alert]
  }

  function StockAlertsToday(cfg: Config, rows: Rows, now: int, symbol: string): nat {
    |set t | t in rows && rows[t].key.NewsKey? && rows[t].key.symbol == symbol
             && rows[t].createdAt >= DayStart(cfg, now)|
  }

  function OverseasAlertsToday(cfg: Config, rows: Rows, now: int): nat {
    |set t | t in rows && rows[t].key.OverseasKey? && rows[t].createdAt >= DayStart(cfg, now)|
  }

  predicate Significant(imp: Impact) {
    !imp.direction.OtherDirection? && !imp.strength.OtherStrength?
  }

  /** An impact counts if it points up or down and is strong or medium. */
  lemma SignificantIff(imp: Impact)
    ensures Significant(imp) <==> imp.direction in {Bullish, Bearish} && imp.strength in {Strong, Medium}
  {
  }

  function OpportunityCode(imp: Impact): string {
    if imp.code != "" then imp.code else imp.name
  }

  function WithHit(db: Db, group: Group, newsId: nat, symbol: string): Db {
    db.(hits := db.hits + {HitKey(group, newsId, symbol)})
  }

  function ImpactStep(cfg: Config, db: Db, now: int, newsId: nat, focus: set<string>, imp: Impact): Db {
    if !Significant(imp) then db
    else if imp.sector then
      if imp.name in focus then WithHit(db, Sector, newsId, imp.name) else db
    else match imp.stock
      case None =>
        if imp.direction.Bullish? && imp.strength.Strong?
        then WithHit(db, Opportunity, newsId, OpportunityCode(imp)) else db
      case Some(stock) =>
        if stock.holding && StockAlertsToday(cfg, db.rows, now, stock.symbol) < cfg.stockLimit
        then db.(rows := CreateIfAbsent(db.rows, Alert(NewsKey(newsId, stock.symbol), now, true)))
        else WithHit(db, Watch, newsId, stock.symbol)
  }

  function ImpactSteps(cfg: Config, db: Db, now: int, newsId: nat, focus: set<string>, imps: seq<Impact>): Db {
    if imps == [] then db else
      ImpactStep(cfg, ImpactSteps(cfg, db, now, newsId, focus, imps[..|imps| - 1]), now, newsId, focus,
                 imps[|imps| - 1])
  }

  function OverseasStep(cfg: Config, db: Db, now: int, newsId: nat, overseasMajor: bool): Db {
    if overseasMajor && OverseasAlertsToday(cfg, db.rows, now) < cfg.overseasLimit
    then db.(rows := CreateIfAbsent(db.rows, Alert(OverseasKey(newsId), now, true))) else db
  }

  /** The work until something raises. */
  function Until<T>(work: seq<T>, at: nat): (r: seq<T>)
    ensures r <= work && |r| == if at < |work| then at else |work|
  {
    if at < |work| then work[..at] else work
  }

  function HandleImpacts(cfg: Config, db: Db, now: int, newsId: nat, overseasMajor: bool, focus: set<string>,
                         imps: seq<Impact>, tx: Tx): Db {
    match tx
    case Committed(_) => OverseasStep(cfg, ImpactSteps(cfg, db, now, newsId, focus, imps), now, newsId, overseasMajor)
    case RolledBack(at) => db.(hits := ImpactSteps(cfg, db, now, newsId, focus, Until(imps, at)).hits)
  }

  /** One match for the keyword rules to answer. */
  datatype Task = Task(newsId: nat, stock: Stock)

  function Tasks(m: Match): (r: seq<Task>)
    ensures |r| == |m.stocks| && forall i :: 0 <= i < |r| ==> r[i] == Task(m.newsId, m.stocks[i])
  {
    seq(|m.stocks|, i requires 0 <= i < |m.stocks| => Task(m.newsId, m.stocks[i]))
  }

  function Work(items: seq<Match>): seq<Task> {
    if items == [] then [] else Work(items[..|items| - 1]) + Tasks(items[|items| - 1])
  }

  function KeywordStep(db: Db, now: int, t: Task): Db {
    if t.stock.holding then db.(rows := CreateIfAbsent(db.rows, Alert(NewsKey(t.newsId, t.stock.symbol), now, false)))
    else WithHit(db, Watch, t.newsId, t.stock.symbol)
  }

  function KeywordWork(db: Db, now: int, work: seq<Task>): Db {
    if work == [] then db else KeywordStep(KeywordWork(db, now, work[..|work| - 1]), now, work[|work| - 1])
  }

  function Fallback(db: Db, now: int, items: seq<Match>, tx: Tx): Db {
    match tx
    case Committed(_) => KeywordWork(db, now, Work(items))
    case RolledBack(at) => db.(hits := KeywordWork(db, now, Until(Work(items), at)).hits)
  }

  lemma {:induction false} KeywordWorkConcat(db: Db, now: int, a: seq<Task>, b: seq<Task>)
    ensures KeywordWork(db, now, a + b) == KeywordWork(KeywordWork(db, now, a), now, b)
  {
    if b == [] {
      assert a + b == a;
    } else {
      assert (a + b)[..|a + b| - 1] == a + b[..|b| - 1];
      KeywordWorkConcat(db, now, a, b[..|b| - 1]);
    }
  }

  /** The work of all items begins with that of the first `k` and then that of item `k`. */
  lemma {:induction false} WorkPrefix(items: seq<Match>, k: nat)
    requires k < |items|
    ensures Work(items[..k + 1]) == Work(items[..k]) + Tasks(items[k])
    ensures Work(items[..k + 1]) <= Work(items)
  {
    assert items[..k + 1][..k] == items[..k];
    if k + 1 < |items| {
      WorkPrefix(items[..|items| - 1], k);
      assert items[..|items| - 1][..k + 1] == items[..k + 1];
    } else {
      assert items[..k + 1] == items;
    }
  }

  /** The first `k` items of a batch are answered, with `done` steps of work. */
  ghost predicate AnsweredTo(db0: Db, db: Db, now: int, items: seq<Match>, k: nat, done: nat) {
    k <= |items| && done == |Work(items[..k])| && db == KeywordWork(db0, now, Work(items[..k]))
  }

  lemma ItemAnswered(db0: Db, before: Db, after: Db, now: int, items: seq<Match>, k: nat, done: nat)
    requires k < |items| && AnsweredTo(db0, before, now, items, k, done)
    requires after == KeywordWork(before, now, Tasks(items[k])[..|items[k].stocks|])
    ensures AnsweredTo(db0, after, now, items, k + 1, done + |items[k].stocks|)
  {
    WorkPrefix(items, k);
    KeywordWorkConcat(db0, now, Work(items[..k]), Tasks(items[k]));
    assert Tasks(items[k])[..|items[k].stocks|] == Tasks(items[k]);
  }

  lemma UntilWithin(a: seq<Task>, b: seq<Task>, work: seq<Task>, n: nat)
    requires n < |b| && a + b <= work
    ensures Until(work, |a| + n) == a + b[..n]
  {
  }

  lemma WorkUntil(items: seq<Match>, k: nat, n: nat)
    requires k < |items| && n < |items[k].stocks|
    ensures Until(Work(items), |Work(items[..k])| + n) == Work(items[..k]) + Tasks(items[k])[..n]
  {
    WorkPrefix(items, k);
    UntilWithin(Work(items[..k]), Tasks(items[k]), Work(items), n);
  }

  lemma StoppedInItem(db0: Db, before: Db, after: Db, now: int, items: seq<Match>, k: nat, n: nat, at: nat)
    requires k < |items| && n < |items[k].stocks| && n <= at && AnsweredTo(db0, before, now, items, k, at - n)
    requires after == KeywordWork(before, now, Tasks(items[k])[..n])
    ensures after.(rows := db0.rows) == Fallback(db0, now, items, RolledBack(at))
  {
    var so, part := Work(items[..k]), Tasks(items[k])[..n];
    KeywordWorkConcat(db0, now, so, part);
    StoppedWork(items, k, n, at);
    FallbackOf(db0, now, items, at, so + part);
  }

  lemma FallbackOf(db: Db, now: int, items: seq<Match>, at: nat, work: seq<Task>)
    requires Until(Work(items), at) == work
    ensures Fallback(db, now, items, RolledBack(at)) == db.(hits := KeywordWork(db, now, work).hits)
  {
  }

  lemma StoppedWork(items: seq<Match>, k: nat, n: nat, at: nat)
    requires k < |items| && n < |items[k].stocks| && n <= at && at - n == |Work(items[..k])|
    ensures Until(Work(items), at) == Work(items[..k]) + Tasks(items[k])[..n]
  {
    WorkUntil(items, k, n);
  }

  lemma AllItemsAnswered(db0: Db, db: Db, now: int, items: seq<Match>, done: nat, tx: Tx)
    requires AnsweredTo(db0, db, now, items, |items|, done) && (tx.RolledBack? ==> done <= tx.at)
    ensures (if tx.RolledBack? then db.(rows := db0.rows) else db) == Fallback(db0, now, items, tx)
  {
    assert items[..|items|] == items;
  }

  function Expired(d: Deferral, now: int): bool {
    now - d.deferredAt >= DEFERRAL_TIMEOUT
  }

  /** The deferrals a sweep leaves in the table. */
  function Waiting(ds: seq<Deferral>, now: int, handled: set<nat>): seq<Deferral> {
    if ds == [] then [] else
      var d := ds[|ds| - 1];
      Waiting(ds[..|ds| - 1], now, handled) + if d.newsId in handled || Expired(d, now) then [] else [d]
  }

  /** The deferrals a sweep hands to the keyword rules, with their matches of that moment. */
  function TimedOut(ds: seq<Deferral>, now: int, handled: set<nat>, matches: nat -> seq<Stock>): seq<Match> {
    if ds == [] then [] else
      var d := ds[|ds| - 1];
      TimedOut(ds[..|ds| - 1], now, handled, matches)
      + if d.newsId !in handled && Expired(d, now) then [Match(d.newsId, matches(d.newsId))] else []
  }

  predicate Deferred(ds: seq<Deferral>, newsId: nat) {
    exists i :: 0 <= i < |ds| && ds[i].newsId == newsId
  }

  /** The rows a batch adds: matched items that were not deferred before it. */
  function NewDeferrals(known: seq<Deferral>, now: int, items: seq<Match>): seq<Deferral> {
    if items == [] then [] else
      var m := items[|items| - 1];
      NewDeferrals(known, now, items[..|items| - 1])
      + if m.stocks != [] && !Deferred(known, m.newsId) then [Deferral(m.newsId, now)] else []
  }

  predicate DistinctNews(ds: seq<Deferral>) {
    forall i, j :: 0 <= i < j < |ds| ==> ds[i].newsId != ds[j].newsId
  }

  datatype State = State(db: Db, deferrals: seq<Deferral>)

  /** Whether a batch in AI mode is recorded: all new rows go in with one commit, which may fail, and whose
      primary key refuses a repeated item. */
  predicate Recorded(s: State, now: int, items: seq<Match>, records: bool) {
    records && DistinctNews(NewDeferrals(s.deferrals, now, items))
  }

  /** A batch in AI mode; what cannot be recorded is answered by the keyword rules at once. */
  function Defer(s: State, now: int, items: seq<Match>, records: bool, tx: Tx): State {
    if Recorded(s, now, items, records) then s.(deferrals := s.deferrals + NewDeferrals(s.deferrals, now, items))
    else s.(db := Fallback(s.db, now, items, tx))
  }

  /** A sweep: one transaction deletes, which may fail, and only after its commit another one answers. */
  function Sweep(s: State, now: int, handled: set<nat>, matches: nat -> seq<Stock>, deletes: bool, tx: Tx): State {
    if !deletes then s
    else State(Fallback(s.db, now, TimedOut(s.deferrals, now, handled, matches), tx), Waiting(s.deferrals, now, handled))
  }

  /** The alert service as far as news is concerned. */
  class NewsAlerts {
    const cfg: Config
    var db: Db
    var deferrals: seq<Deferral>

    constructor (cfg: Config, rows: Rows)
      ensures this.cfg == cfg && db == Db(rows, {}) && deferrals == []
    {
      this.cfg := cfg;
      db, deferrals := Db(rows, {}), [];
    }

    ghost function View(): State
      reads this
    {
      State(db, deferrals)
    }

    /** The repository's insert. `arrived` is what other transactions commit between the lookup and the
        insert; the unique key then refuses the insert inside its savepoint. */
    method Create(alert: Alert, arrived: Rows) returns (created: bool)
      modifies this`db
      ensures db == old(db).(rows := CreateIfAbsent(arrived + old(db).rows, alert))
      ensures created <==> KeyText(alert.key) !in arrived + old(db).rows
      ensures |db.rows| == |arrived + old(db).rows| + if created then 1 else 0
    {
      var key := KeyText(alert.key);
      var known := key in db.rows;
      db := db.(rows := arrived + db.rows);
      if known {
        return false;
      }
      created := key !in db.rows;
      if created {
        db := db.(rows := db.rows[key := alert]);
      }
    }

    /** An insert with nobody in between, and how many rows it adds. */
    method Insert(alert: Alert) returns (added: nat)
      modifies this`db
      ensures db == old(db).(rows := CreateIfAbsent(old(db).rows, alert))
      ensures |db.rows| == |old(db).rows| + added
    {
      assert map[] + db.rows == db.rows;
      var created := Create(alert, map[]);
      added := if created then 1 else 0;
    }

    /** `on_news_impacts` */
    method OnNewsImpacts(now: int, newsId: nat, overseasMajor: bool, focus: set<string>, imps: seq<Impact>, tx: Tx)
      returns (created: nat, raised: bool)
      modifies this`db
      ensures db == HandleImpacts(cfg, old(db), now, newsId, overseasMajor, focus, imps, tx)
      ensures raised == Raises(tx, created) && |db.rows| == |old(db).rows| + created
    {
      created := 0;
      var before := db.rows;
      var k := 0;
      while k < |imps| && (tx.RolledBack? ==> k < tx.at)
        invariant 0 <= k <= |imps| && db == ImpactSteps(cfg, old(db), now, newsId, focus, imps[..k])
        invariant |db.rows| == |old(db).rows| + created && (tx.RolledBack? ==> k <= tx.at)
      {
        assert imps[..k + 1][..k] == imps[..k];
        var added := OnImpact(now, newsId, focus, imps[k]);
        created := created + added;
        k := k + 1;
      }
      assert imps[..|imps|] == imps;
      if tx.RolledBack? {
        db := db.(rows := before);
        return 0, true;
      }
      if overseasMajor && OverseasAlertsToday(cfg, db.rows, now) < cfg.overseasLimit {
        var added := Insert(Alert(OverseasKey(newsId), now, true));
        created := created + added;
      }
      raised := Raises(tx, created);
    }

    /** The body of its loop. */
    method OnImpact(now: int, newsId: nat, focus: set<string>, imp: Impact) returns (created: nat)
      modifies this`db
      ensures db == ImpactStep(cfg, old(db), now, newsId, focus, imp) && |db.rows| == |old(db).rows| + created
    {
      created := 0;
      if !Significant(imp) {
        return;
      }
      if imp.sector {
        if imp.name in focus {
          db := WithHit(db, Sector, newsId, imp.name);
        }
        return;
      }
      if imp.stock.None? {
        if imp.direction.Bullish? && imp.strength.Strong? {
          db := WithHit(db, Opportunity, newsId, OpportunityCode(imp));
        }
        return;
      }
      var stock := imp.stock.value;
      if stock.holding && StockAlertsToday(cfg, db.rows, now, stock.symbol) < cfg.stockLimit {
        created := Insert(Alert(NewsKey(newsId, stock.symbol), now, true));
        return;
      }
      db := WithHit(db, Watch, newsId, stock.symbol);
    }

    /** `on_news_keyword_fallback` */
    method OnKeywordFallback(now: int, items: seq<Match>, tx: Tx) returns (created: nat, raised: bool)
      modifies this`db
      ensures db == Fallback(old(db), now, items, tx)
      ensures raised == Raises(tx, created) && |db.rows| == |old(db).rows| + created
    {
      created := 0;
      var before := db.rows;
      var done: nat, k: nat := 0, 0;
      while k < |items|
        invariant 0 <= k <= |items| && (tx.RolledBack? ==> done <= tx.at)
        invariant AnsweredTo(old(db), db, now, items, k, done) && |db.rows| == |old(db).rows| + created
      {
        ghost var so := db;
        var stop := if tx.RolledBack? then tx.at - done else |items[k].stocks|;
        var added, n := OnKeywordMatch(now, items[k], stop);
        if n < |items[k].stocks| {
          StoppedInItem(old(db), so, db, now, items, k, n, tx.at);
          db := db.(rows := before);
          return 0, true;
        }
        ItemAnswered(old(db), so, db, now, items, k, done);
        created, done, k := created + added, done + n, k + 1;
      }
      AllItemsAnswered(old(db), db, now, items, done, tx);
      if tx.RolledBack? {
        db := db.(rows := before);
        return 0, true;
      }
      raised := Raises(tx, created);
    }

    /** One item: an alert for each holding it matches, a digest hit for each other stock, up to the step that
        raises. */
    method OnKeywordMatch(now: int, m: Match, stop: nat) returns (created: nat, done: nat)
      modifies this`db
      ensures done == if stop < |m.stocks| then stop else |m.stocks|
      ensures db == KeywordWork(old(db), now, Tasks(m)[..done]) && |db.rows| == |old(db).rows| + created
    {
      created, done := 0, 0;
      while done < |m.stocks| && done < stop
        invariant 0 <= done <= |m.stocks| && done <= stop
        invariant db == KeywordWork(old(db), now, Tasks(m)[..done]) && |db.rows| == |old(db).rows| + created
      {
        assert Tasks(m)[..done + 1][..done] == Tasks(m)[..done];
        if m.stocks[done].holding {
          var added := Insert(Alert(NewsKey(m.newsId, m.stocks[done].symbol), now, false));
          created := created + added;
        } else {
          db := WithHit(db, Watch, m.newsId, m.stocks[done].symbol);
        }
        done := done + 1;
      }
    }

    /** `_defer_keyword_hits` */
    method DeferKeywordHits(now: int, items: seq<Match>, records: bool, tx: Tx) returns (raised: bool)
      modifies this
      ensures View() == Defer(old(View()), now, items, records, tx)
      ensures raised == (!Recorded(old(View()), now, items, records) && Raises(tx, |db.rows| - |old(db).rows|))
    {
      var added: seq<Deferral> := [];
      var k := 0;
      while k < |items|
        invariant 0 <= k <= |items|
        invariant added == NewDeferrals(deferrals, now, items[..k]) && View() == old(View())
      {
        assert items[..k + 1][..k] == items[..k];
        if items[k].stocks != [] && !Deferred(deferrals, items[k].newsId) {
          added := added + [Deferral(items[k].newsId, now)];
        }
        k := k + 1;
      }
      assert items[..k] == items;
      if records && DistinctNews(added) {
        deferrals := deferrals + added;
        return false;
      }
      var _, failed := OnKeywordFallback(now, items, tx);
      raised := failed;
    }

    /** `sweep_deferred`; `deletes` says whether its first transaction commits. */
    method SweepDeferred(now: int, handled: set<nat>, matches: nat -> seq<Stock>, deletes: bool, tx: Tx)
      returns (created: nat, raised: bool)
      modifies this
      ensures View() == Sweep(old(View()), now, handled, matches, deletes, tx)
      ensures |db.rows| == |old(db).rows| + created && (!deletes ==> raised)
      ensures deletes ==> raised == (TimedOut(old(deferrals), now, handled, matches) != [] && Raises(tx, created))
    {
      var fallback: seq<Match>, kept: seq<Deferral> := [], [];
      var k := 0;
      while k < |deferrals|
        invariant 0 <= k <= |deferrals| && View() == old(View())
        invariant fallback == TimedOut(deferrals[..k], now, handled, matches)
        invariant kept == Waiting(deferrals[..k], now, handled)
      {
        var d := deferrals[k];
        assert deferrals[..k + 1][..k] == deferrals[..k];
        if d.newsId !in handled {
          if Expired(d, now) {
            fallback := fallback + [Match(d.newsId, matches(d.newsId))];
          } else {
            kept := kept + [d];
          }
        }
        k := k + 1;
      }
      assert deferrals[..k] == deferrals;
      if !deletes {
        return 0, true;
      }
      deferrals := kept;
      if fallback == [] {
        return 0, false;
      }
      created, raised := OnKeywordFallback(now, fallback, tx);
    }
  }
}
