/** From an impact or a keyword match to the alert or the digest that shows it: the alert rules and the digest
    buffer together. */
module AlertDelivery {
  import opened Prelude
  import opened DigestBuffer
  import opened AlertRules
  import opened AlertGuarantees
  import opened AlertFates
  import Digest = DigestProtocol

  /** One handler, and the states that the digest service goes through from its start to the start of the next
      handler, whatever other threads do meanwhile. */
  datatype Episode = Episode(event: Event, path: seq<Digest.State>)

  function Events(eps: seq<Episode>): (es: seq<Event>)
    ensures |es| == |eps| && forall i :: 0 <= i < |es| ==> es[i] == eps[i].event
  {
    seq(|eps|, i requires 0 <= i < |eps| => eps[i].event)
  }

  /** All states of the digest service, in order. */
  function Path(start: Digest.State, eps: seq<Episode>): (r: seq<Digest.State>)
    ensures r != []
  {
    if eps == [] then [start] else Path(start, eps[..|eps| - 1]) + eps[|eps| - 1].path
  }

  function Final(path: seq<Digest.State>): Digest.State
    requires path != []
  {
    path[|path| - 1]
  }

  ghost predicate Buffering(minutes: int, s: Digest.State, s': Digest.State, key: HitKey) {
    exists hit: Hit :: hit.Key() == key && Digest.Next(minutes, s, Digest.Buffer(hit), s')
  }

  ghost predicate BuffersAt(minutes: int, path: seq<Digest.State>, i: nat, key: HitKey) {
    i + 1 < |path| && Buffering(minutes, path[i], path[i + 1], key)
  }

  ghost predicate BuffersOn(minutes: int, path: seq<Digest.State>, key: HitKey) {
    exists i: nat :: BuffersAt(minutes, path, i, key)
  }

  /** Every hit that a handler adds is a buffer step of the digest service while the handler runs. */
  ghost predicate Together(cfg: Config, minutes: int, s: State, start: Digest.State, eps: seq<Episode>)
    decreases |eps|
  {
    eps == [] ||
      var n := |eps| - 1;
      var stretch := [Final(Path(start, eps[..n]))] + eps[n].path;
      var before := After(cfg, s, Events(eps[..n]));
      && Together(cfg, minutes, s, start, eps[..n])
      && Digest.Linked(minutes, stretch)
      && forall key :: key in Apply(cfg, before, eps[n].event).db.hits && key !in before.db.hits ==>
           BuffersOn(minutes, stretch, key)
  }

  lemma EventsPrefix(eps: seq<Episode>)
    requires eps != []
    ensures Events(eps)[..|eps| - 1] == Events(eps[..|eps| - 1])
  {
  }

  lemma {:induction false} PathIsRun(cfg: Config, minutes: int, s: State, start: Digest.State, eps: seq<Episode>)
    requires Together(cfg, minutes, s, start, eps) && Digest.Init(minutes, start)
    ensures Digest.Run(minutes, Path(start, eps)) && Path(start, eps)[0] == start
  {
    if eps != [] {
      var n := |eps| - 1;
      PathIsRun(cfg, minutes, s, start, eps[..n]);
      Digest.LinkedOn(minutes, Path(start, eps[..n]), eps[n].path);
    }
  }

  lemma BuffersEarlier(minutes: int, a: seq<Digest.State>, b: seq<Digest.State>, key: HitKey)
    requires BuffersOn(minutes, a, key)
    ensures BuffersOn(minutes, a + b, key)
  {
    var i: nat :| BuffersAt(minutes, a, i, key);
    assert BuffersAt(minutes, a + b, i, key);
  }

  lemma BuffersLater(minutes: int, a: seq<Digest.State>, b: seq<Digest.State>, key: HitKey)
    requires a != [] && BuffersOn(minutes, [Final(a)] + b, key)
    ensures BuffersOn(minutes, a + b, key)
  {
    var c := [Final(a)] + b;
    var i: nat :| BuffersAt(minutes, c, i, key);
    var m := |a| - 1 + i;
    assert (a + b)[m] == c[i] && (a + b)[m + 1] == c[i + 1];
    assert BuffersAt(minutes, a + b, m, key);
  }

  /** Every hit the alert rules count as taken in was a buffer step of the run. */
  lemma {:induction false} HitsAreBuffered(cfg: Config, minutes: int, s: State, start: Digest.State, eps: seq<Episode>,
                                           key: HitKey)
    requires Together(cfg, minutes, s, start, eps) && s.db.hits == {}
    requires key in After(cfg, s, Events(eps)).db.hits
    ensures BuffersOn(minutes, Path(start, eps), key)
  {
    var n := |eps| - 1;
    EventsPrefix(eps);
    if key in After(cfg, s, Events(eps[..n])).db.hits {
      HitsAreBuffered(cfg, minutes, s, start, eps[..n], key);
      BuffersEarlier(minutes, Path(start, eps[..n]), eps[n].path, key);
    } else {
      BuffersLater(minutes, Path(start, eps[..n]), eps[n].path, key);
    }
  }

  /** Some window has accepted a hit with this key. */
  ghost predicate Accepted(s: Digest.State, key: HitKey) {
    exists a, h :: a in s.accepted && h in s.accepted[a] && h.Key() == key
  }

  /** A buffered hit is accepted, or one with its key was before. */
  lemma BufferedIsAccepted(minutes: int, s: Digest.State, hit: Hit, s': Digest.State)
    requires Digest.Inv(minutes, s) && Digest.Next(minutes, s, Digest.Buffer(hit), s')
    ensures Accepted(s', hit.Key())
  {
    var a := WindowStart(s.clock, minutes);
    if Accepts(s.windows, a, hit) {
      assert hit in s'.accepted[a];
    } else {
      assert Digest.WindowOk(s, a, s.windows[a]);
      var h :| h in s.windows[a].hits && h.Key() == hit.Key();
      assert h in s'.accepted[a];
    }
  }

  lemma BufferingIsAccepted(minutes: int, s: Digest.State, s': Digest.State, key: HitKey)
    requires Digest.Inv(minutes, s) && Buffering(minutes, s, s', key)
    ensures Accepted(s', key)
  {
    var hit: Hit :| hit.Key() == key && Digest.Next(minutes, s, Digest.Buffer(hit), s');
    BufferedIsAccepted(minutes, s, hit, s');
  }

  lemma StepKeepsAccepted(minutes: int, s: Digest.State, s': Digest.State, key: HitKey)
    requires Digest.Step(minutes, s, s') && Accepted(s, key)
    ensures Accepted(s', key)
  {
    var action :| Digest.Next(minutes, s, action, s');
    var a, h :| a in s.accepted && h in s.accepted[a] && h.Key() == key;
    assert a in s'.accepted && h in s'.accepted[a];
  }

  lemma {:induction false} StaysAccepted(minutes: int, run: seq<Digest.State>, i: nat, j: nat, key: HitKey)
    requires Digest.Run(minutes, run) && i <= j < |run| && Accepted(run[i], key)
    ensures Accepted(run[j], key)
    decreases j
  {
    if i < j {
      StaysAccepted(minutes, run, i, j - 1, key);
      assert Digest.Step(minutes, run[j - 1], run[j - 1 + 1]);
      StepKeepsAccepted(minutes, run[j - 1], run[j], key);
    }
  }

  lemma RunBuffers(minutes: int, run: seq<Digest.State>, i: nat, key: HitKey)
    requires minutes >= 1 && Digest.Run(minutes, run) && BuffersAt(minutes, run, i, key)
    ensures Accepted(run[i + 1], key)
  {
    Digest.RunKeepsInv(minutes, run, i);
    BufferingIsAccepted(minutes, run[i], run[i + 1], key);
  }

  lemma BuffersAtIsAccepted(minutes: int, run: seq<Digest.State>, i: nat, key: HitKey)
    requires minutes >= 1 && Digest.Run(minutes, run) && BuffersAt(minutes, run, i, key)
    ensures Accepted(Final(run), key)
  {
    RunBuffers(minutes, run, i, key);
    StaysAccepted(minutes, run, i + 1, |run| - 1, key);
  }

  lemma BuffersOnIsAccepted(minutes: int, run: seq<Digest.State>, key: HitKey)
    requires minutes >= 1 && Digest.Run(minutes, run) && BuffersOn(minutes, run, key)
    ensures Accepted(Final(run), key)
  {
    var i: nat :| BuffersAt(minutes, run, i, key);
    BuffersAtIsAccepted(minutes, run, i, key);
  }

  /** The digest of some window shows a hit with this key. */
  ghost predicate InDigest(db: Digests, key: HitKey) {
    exists a, h :: (key.group, a) in db && h in db[(key.group, a)] && h.Key() == key
  }

  /** Nothing is buffered or in flight. */
  ghost predicate Drained(s: Digest.State) {
    s.flights == map[] && s.windows == map[]
  }

  lemma AcceptedIsShown(minutes: int, run: seq<Digest.State>, key: HitKey)
    requires minutes >= 1 && Digest.Run(minutes, run) && Drained(Final(run)) && Accepted(Final(run), key)
    ensures InDigest(Final(run).db, key)
  {
    var s, i := Final(run), |run| - 1;
    var a, h :| a in s.accepted && h in s.accepted[a] && h.Key() == key;
    Digest.RunKeepsInv(minutes, run, i);
    Digest.DrainedIsDelivered(minutes, run, i, a, h);
    assert h in s.db[(key.group, a)];
  }

  /** Once the windows are drained, the hits taken in are those the digests show, at least. */
  lemma {:induction false} HitIsShown(cfg: Config, minutes: int, s: State, start: Digest.State, eps: seq<Episode>, key: HitKey)
    requires minutes >= 1 && Together(cfg, minutes, s, start, eps) && Digest.Init(minutes, start) && s.db.hits == {}
    requires Drained(Final(Path(start, eps))) && key in After(cfg, s, Events(eps)).db.hits
    ensures InDigest(Final(Path(start, eps)).db, key)
  {
    PathIsRun(cfg, minutes, s, start, eps);
    HitsAreBuffered(cfg, minutes, s, start, eps, key);
    BuffersOnIsAccepted(minutes, Path(start, eps), key);
    AcceptedIsShown(minutes, Path(start, eps), key);
  }

  ghost predicate StockShown(rows: Rows, db: Digests, newsId: nat, stock: Stock) {
    InDigest(db, HitKey(Watch, newsId, stock.symbol)) || (stock.holding && HasNewsRow(rows, newsId, stock.symbol))
  }

  /** The user sees the impact: as an alert row for a holding, or in a digest of its group. */
  ghost predicate ImpactShown(rows: Rows, db: Digests, newsId: nat, focus: set<string>, imp: Impact) {
    Significant(imp) ==>
      if imp.sector then imp.name in focus ==> InDigest(db, HitKey(Sector, newsId, imp.name))
      else if imp.stock.Some? then StockShown(rows, db, newsId, imp.stock.value)
      else imp.direction.Bullish? && imp.strength.Strong? ==>
        InDigest(db, HitKey(Opportunity, newsId, OpportunityCode(imp)))
  }

  /** From end to end: whatever the threads of the digest service do and whichever other transactions fail, a
      significant impact whose handler commits is an alert row, or is in a digest of its group once the windows
      are drained. */
  lemma {:induction false} ImpactIsShown(cfg: Config, minutes: int, s: State, start: Digest.State, eps: seq<Episode>, i: nat, k: nat)
    requires minutes >= 1 && Together(cfg, minutes, s, start, eps) && Digest.Init(minutes, start) && s.db.hits == {}
    requires Good(cfg, s.db.rows) && ValidEvents(Events(eps)) && Drained(Final(Path(start, eps)))
    requires i < |eps| && eps[i].event.Impacts? && eps[i].event.tx.Committed? && k < |eps[i].event.imps|
    ensures ImpactShown(After(cfg, s, Events(eps)).db.rows, Final(Path(start, eps)).db, eps[i].event.newsId,
                        eps[i].event.focus, eps[i].event.imps[k])
  {
    ImpactsAreAnswered(cfg, s, Events(eps), i, k);
    var key := ExpectedHit(eps[i].event.newsId, eps[i].event.imps[k]);
    if key in After(cfg, s, Events(eps)).db.hits { HitIsShown(cfg, minutes, s, start, eps, key); }
  }

  /** The same for keyword matches that an event hands to the keyword rules in a transaction that commits. */
  lemma {:induction false} MatchIsShown(cfg: Config, minutes: int, s: State, start: Digest.State, eps: seq<Episode>, j: nat, id: nat,
                     stocks: seq<Stock>, i: nat)
    requires minutes >= 1 && Together(cfg, minutes, s, start, eps) && Digest.Init(minutes, start) && s.db.hits == {}
    requires Good(cfg, s.db.rows) && ValidEvents(Events(eps)) && Drained(Final(Path(start, eps)))
    requires j < |eps| && TxOf(eps[j].event).Committed? && i < |stocks|
    requires HandedOver(After(cfg, s, Events(eps)[..j]), eps[j].event, id, stocks)
    ensures StockShown(After(cfg, s, Events(eps)).db.rows, Final(Path(start, eps)).db, id, stocks[i])
  {
    CommittedIsAnswered(cfg, s, Events(eps), j, id, stocks);
    assert Answered(After(cfg, s, Events(eps)).db, id, stocks[i]);
    var key := HitKey(Watch, id, stocks[i].symbol);
    if key in After(cfg, s, Events(eps)).db.hits { HitIsShown(cfg, minutes, s, start, eps, key); }
  }

  // ---------------------------------------------------------------- such a run

  /** With windows of a minute: one hit is buffered, the minute passes, and a flush writes its digest. */
  function OneFlush(hit: Hit): seq<Digest.State> {
    var due: Windows := map[0 := Add(Window(0, [], {}), hit)];
    var log := map[0 := [hit]];
    var db: Digests := map[(hit.group, 0) := [hit]];
    [Digest.State(0, due, map[], map[], log), Digest.State(MINUTE, due, map[], map[], log),
     Digest.State(MINUTE, map[], map[0 := Digest.Flight(due, false)], map[], log),
     Digest.State(MINUTE, map[], map[0 := Digest.Flight(due, true)], db, log), Digest.State(MINUTE, map[], map[], db, log)]
  }

  const FRESH := Digest.State(0, map[], map[], map[], map[])

  lemma OneHitWritten(hit: Hit)
    ensures Persisted(map[], map[0 := Add(Window(0, [], {}), hit)], map[(hit.group, 0) := [hit]])
  {
    forall g: Group ensures OfGroup([hit], g) == if g == hit.group then [hit] else [] {
      assert [hit][..0] == [];
    }
  }

  lemma OneFlushSteps(hit: Hit)
    ensures var p := [FRESH] + OneFlush(hit);
            && Digest.Next(1, p[2], Digest.Pop(0), p[3]) && Digest.Next(1, p[3], Digest.Commit(0), p[4])
            && Digest.Next(1, p[4], Digest.Finish(0), p[5])
  {
    var p := [FRESH] + OneFlush(hit);
    OneHitWritten(hit);
    assert Ended(0, 1, MINUTE) && EndedWindows(p[2].windows, 1, MINUTE) == p[2].windows;
  }

  lemma OneBuffered(hit: Hit)
    ensures Digest.Step(1, FRESH, OneFlush(hit)[0]) && Buffering(1, FRESH, OneFlush(hit)[0], hit.Key())
  {
    assert WindowStart(0, 1) == 0;
    assert Buffered(map[], 0, hit) == map[0 := Add(Window(0, [], {}), hit)];
    var none: seq<Hit> := [];
    assert none + [hit] == [hit];
    assert Digest.Next(1, FRESH, Digest.Buffer(hit), OneFlush(hit)[0]);
  }

  lemma OneFlushIsLinked(hit: Hit)
    ensures Digest.Linked(1, [FRESH] + OneFlush(hit)) && BuffersOn(1, [FRESH] + OneFlush(hit), hit.Key())
  {
    var p := [FRESH] + OneFlush(hit);
    OneBuffered(hit);
    assert Digest.Next(1, p[1], Digest.Tick(MINUTE), p[2]);
    OneFlushSteps(hit);
    assert BuffersAt(1, p, 0, hit.Key());
  }

  lemma EmptyIsGood(cfg: Config)
    ensures Good(cfg, map[])
  {
    forall symbol, day ensures AiStockAlerts(cfg, map[], symbol, day) == {} {
    }
    forall day ensures OverseasAlerts(cfg, map[], day) == {} {
    }
  }

  function SectorImpact(name: string): Impact {
    Impact(Bullish, Strong, true, name, "", None)
  }

  /** The hypotheses of the theorems above are met: an impact on a followed sector, and its flush. */
  lemma {:induction false} SectorImpactIsShown(cfg: Config, newsId: nat, name: string)
    ensures var s := State(Db(map[], {}), []);
            var e := Impacts(0, newsId, false, {name}, [SectorImpact(name)], Committed(true));
            var eps := [Episode(e, OneFlush(Hit(newsId, name, name, "", Sector, None)))];
            && Together(cfg, 1, s, FRESH, eps) && Digest.Init(1, FRESH) && Good(cfg, s.db.rows)
            && ValidEvents(Events(eps)) && Drained(Final(Path(FRESH, eps)))
            && InDigest(Final(Path(FRESH, eps)).db, HitKey(Sector, newsId, name))
  {
    var s := State(Db(map[], {}), []);
    var imp, hit := SectorImpact(name), Hit(newsId, name, name, "", Sector, None);
    var e := Impacts(0, newsId, false, {name}, [imp], Committed(true));
    var eps := [Episode(e, OneFlush(hit))];
    EmptyIsGood(cfg);
    OneFlushIsLinked(hit);
    OneImpact(cfg, newsId, name);
    OneEpisode(cfg, s, e, hit);
    ImpactIsShown(cfg, 1, s, FRESH, eps, 0, 0);
  }

  lemma OneImpact(cfg: Config, newsId: nat, name: string)
    ensures Apply(cfg, State(Db(map[], {}), []), Impacts(0, newsId, false, {name}, [SectorImpact(name)], Committed(true))).db
         == Db(map[], {HitKey(Sector, newsId, name)})
  {
    var imp, db := SectorImpact(name), Db(map[], {});
    assert [imp][..0] == [] && ImpactSteps(cfg, db, 0, newsId, {name}, []) == db;
    assert ImpactSteps(cfg, db, 0, newsId, {name}, [imp]) == ImpactStep(cfg, db, 0, newsId, {name}, imp);
    assert Significant(imp) && name in {name};
  }

  lemma {:induction false} OneEpisode(cfg: Config, s: State, e: Event, hit: Hit)
    requires Apply(cfg, s, e).db.hits <= s.db.hits + {hit.Key()}
    ensures var eps := [Episode(e, OneFlush(hit))];
            Together(cfg, 1, s, FRESH, eps) && Path(FRESH, eps) == [FRESH] + OneFlush(hit)
  {
    var eps := [Episode(e, OneFlush(hit))];
    OneFlushIsLinked(hit);
    assert eps[..0] == [] && Events([]) == [] && Path(FRESH, []) == [FRESH] && Together(cfg, 1, s, FRESH, []);
  }
}
