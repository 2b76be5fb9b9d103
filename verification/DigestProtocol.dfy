/** Digest windows under concurrency: any number of threads buffer hits and flush, each critical section
    and each database transaction being one step, on a clock that never goes back. */
module DigestProtocol {
  import opened Prelude
  import opened Arithmetic
  import opened DigestBuffer

  /** A flush between its pop and its end: what it holds, and whether its transaction has committed. */
  datatype Flight = Flight(due: Windows, committed: bool)

  /** `accepted` records, for each window, every hit the buffer took in, in order. Nothing reads it. */
  datatype State = State(clock: int, windows: Windows, flights: map<nat, Flight>, db: Digests,
                         accepted: map<int, seq<Hit>>)

  datatype Action =
    | Tick(to: int)
    | Buffer(hit: Hit)
    | Pop(thread: nat)
    | Commit(thread: nat)
    | Finish(thread: nat)
    | Fail(thread: nat)  // a raise before the commit, or after it

  ghost predicate Next(minutes: int, s: State, a: Action, s': State) {
    match a
    case Tick(to) => to >= s.clock && s' == s.(clock := to)
    case Buffer(hit) =>
      var start := WindowStart(s.clock, minutes);
      s' == s.(windows := Buffered(s.windows, start, hit),
               accepted := if Accepts(s.windows, start, hit) then Logged(s.accepted, start, hit) else s.accepted)
    case Pop(thread) =>
      var due := EndedWindows(s.windows, minutes, s.clock);
      thread !in s.flights
      && s' == s.(windows := s.windows - due.Keys, flights := s.flights[thread := Flight(due, false)])
    case Commit(thread) =>
      && thread in s.flights && !s.flights[thread].committed
      && Persisted(s.db, s.flights[thread].due, s'.db)
      && s' == s.(db := s'.db, flights := s.flights[thread := s.flights[thread].(committed := true)])
    case Finish(thread) =>
      && thread in s.flights && (s.flights[thread].committed || s.flights[thread].due == map[])
      && s' == s.(flights := s.flights - {thread})
    case Fail(thread) =>
      && thread in s.flights
      && s' == s.(windows := Restored(s.windows, s.flights[thread].due), flights := s.flights - {thread})
  }

  ghost function Logged(log: map<int, seq<Hit>>, start: int, hit: Hit): map<int, seq<Hit>> {
    log[start := (if start in log then log[start] else []) + [hit]]
  }

  ghost predicate Step(minutes: int, s: State, s': State) {
    exists a :: Next(minutes, s, a, s')
  }

  /** A fresh service. Digests of earlier processes may be there, for windows that are over. */
  ghost predicate Init(minutes: int, s: State) {
    && s.windows == map[] && s.flights == map[] && s.accepted == map[]
    && forall g: Group, a: int :: (g, a) in s.db ==> Ended(a, minutes, s.clock)
  }

  ghost predicate Linked(minutes: int, run: seq<State>) {
    forall i :: 0 <= i < |run| - 1 ==> Step(minutes, run[i], run[i + 1])
  }

  ghost predicate Run(minutes: int, run: seq<State>) {
    run != [] && Init(minutes, run[0]) && Linked(minutes, run)
  }

  ghost predicate Held(s: State, a: int) {
    exists thread :: thread in s.flights && a in s.flights[thread].due
  }

  /** Every group of the window that has hits has its digest row. */
  ghost predicate Settled(db: Digests, a: int, hits: seq<Hit>) {
    forall g: Group :: OfGroup(hits, g) != [] ==> (g, a) in db
  }

  ghost predicate DistinctKeys(hits: seq<Hit>) {
    forall i, j :: 0 <= i < j < |hits| ==> hits[i].Key() != hits[j].Key()
  }

  ghost predicate WindowOk(s: State, a: int, w: Window) {
    && w.start == a && a in s.accepted && w.hits == s.accepted[a]
    && (forall h :: h in w.hits ==> h.Key() in w.keys)
    && forall k :: k in w.keys ==> exists h :: h in w.hits && h.Key() == k
  }

  /** Each window's hits are in one place: the buffer, one flush in flight, or the digest rows. */
  ghost predicate Inv(minutes: int, s: State) {
    && (forall a :: a in s.accepted ==> DistinctKeys(s.accepted[a]))
    && (forall a :: a in s.windows ==> WindowOk(s, a, s.windows[a]))
    && (forall a :: a in s.accepted && a !in s.windows ==> Ended(a, minutes, s.clock))
    && (forall a :: a in s.accepted && a !in s.windows && !Held(s, a) ==> Settled(s.db, a, s.accepted[a]))
    && (forall t, a :: t in s.flights && a in s.flights[t].due ==> FlightOk(s, t, a))
    && (forall g: Group, a: int :: (g, a) in s.db ==> RowOk(minutes, s, g, a))
  }

  ghost predicate FlightOk(s: State, t: nat, a: int)
    requires t in s.flights && a in s.flights[t].due
  {
    && WindowOk(s, a, s.flights[t].due[a]) && a !in s.windows
    && (s.flights[t].committed ==> Settled(s.db, a, s.accepted[a]))
    && forall u :: u in s.flights && u != t ==> a !in s.flights[u].due
  }

  /** A digest row is of a window that is over and holds all the hits of its group, in order. */
  ghost predicate RowOk(minutes: int, s: State, g: Group, a: int)
    requires (g, a) in s.db
  {
    Ended(a, minutes, s.clock) && (a in s.accepted ==> s.db[(g, a)] == OfGroup(s.accepted[a], g) != [])
  }

  /** The window of an accepted hit, before and after. */
  lemma BufferedWindow(s: State, start: int, hit: Hit, s': State)
    requires forall a :: a in s.accepted ==> DistinctKeys(s.accepted[a])
    requires forall a :: a in s.windows ==> WindowOk(s, a, s.windows[a])
    requires (start in s.accepted ==> start in s.windows) && Accepts(s.windows, start, hit)
    requires s' == s.(windows := Buffered(s.windows, start, hit), accepted := Logged(s.accepted, start, hit))
    ensures start in s'.windows && start in s'.accepted
    ensures DistinctKeys(s'.accepted[start]) && WindowOk(s', start, s'.windows[start])
  {
    var before := if start in s.windows then s.windows[start] else Window(start, [], {});
    assert before.hits == if start in s.accepted then s.accepted[start] else [];
    assert s'.windows[start] == Add(before, hit);
    assert forall i :: 0 <= i < |before.hits| ==> before.hits[i] in before.hits;
  }

  lemma BufferKeepsInv(minutes: int, s: State, hit: Hit, s': State)
    requires minutes >= 1 && Inv(minutes, s) && Next(minutes, s, Buffer(hit), s')
    ensures Inv(minutes, s')
  {
    var start := WindowStart(s.clock, minutes);
    WindowHoldsNow(s.clock, minutes);
    assert !Ended(start, minutes, s.clock);
    if Accepts(s.windows, start, hit) {
      BufferedWindow(s, start, hit, s');
      forall t, a | t in s'.flights && a in s'.flights[t].due ensures FlightOk(s', t, a) {
        assert FlightOk(s, t, a);
      }
      forall a | a in s'.accepted && a !in s'.windows && !Held(s', a) ensures Settled(s'.db, a, s'.accepted[a]) {
        assert !Held(s, a);
      }
    } else {
      assert s' == s;
    }
  }

  lemma PopKeepsInv(minutes: int, s: State, thread: nat, s': State)
    requires Inv(minutes, s) && Next(minutes, s, Pop(thread), s')
    ensures Inv(minutes, s')
  {
    var due := EndedWindows(s.windows, minutes, s.clock);
    assert forall t, a :: t in s.flights && a in s.flights[t].due ==> FlightOk(s, t, a) && a !in due;
    forall t, a | t in s'.flights && a in s'.flights[t].due ensures FlightOk(s', t, a) {
    }
    forall a | a in due ensures Held(s', a) {
      assert thread in s'.flights && a in s'.flights[thread].due;
    }
    forall a | Held(s, a) ensures Held(s', a) {
      var u :| u in s.flights && a in s.flights[u].due;
      assert u in s'.flights && a in s'.flights[u].due;
    }
  }

  lemma CommitKeepsInv(minutes: int, s: State, thread: nat, s': State)
    requires Inv(minutes, s) && Next(minutes, s, Commit(thread), s')
    ensures Inv(minutes, s')
  {
    var due := s.flights[thread].due;
    forall g: Group, a: int | (g, a) in s'.db ensures RowOk(minutes, s', g, a) {
      if (g, a) in s.db { assert RowOk(minutes, s, g, a); } else { assert FlightOk(s, thread, a); }
    }
    forall t, a | t in s'.flights && a in s'.flights[t].due ensures FlightOk(s', t, a) {
      assert FlightOk(s, t, a);
    }
    forall a | Held(s, a) ensures Held(s', a) {
      var t :| t in s.flights && a in s.flights[t].due;
      assert t in s'.flights && a in s'.flights[t].due;
    }
  }

  lemma FinishKeepsInv(minutes: int, s: State, thread: nat, s': State)
    requires Inv(minutes, s) && Next(minutes, s, Finish(thread), s')
    ensures Inv(minutes, s')
  {
    forall t, a | t in s'.flights && a in s'.flights[t].due ensures FlightOk(s', t, a) {
      assert FlightOk(s, t, a);
    }
    forall a | a in s'.accepted && a !in s'.windows && !Held(s', a) ensures Settled(s'.db, a, s'.accepted[a]) {
      if a in s.flights[thread].due { assert FlightOk(s, thread, a); } else { StillHeld(s, thread, s', a); }
    }
  }

  lemma StillHeld(s: State, thread: nat, s': State, a: int)
    requires thread in s.flights && a !in s.flights[thread].due && s'.flights == s.flights - {thread}
    ensures Held(s, a) <==> Held(s', a)
  {
    if Held(s, a) {
      var t :| t in s.flights && a in s.flights[t].due;
      assert t in s'.flights && a in s'.flights[t].due;
    }
  }

  lemma FailKeepsInv(minutes: int, s: State, thread: nat, s': State)
    requires Inv(minutes, s) && Next(minutes, s, Fail(thread), s')
    ensures Inv(minutes, s')
  {
    var due := s.flights[thread].due;
    forall a | a in due ensures a !in s.windows && s'.windows[a] == due[a] && WindowOk(s', a, due[a]) {
      assert FlightOk(s, thread, a);
    }
    forall t, a | t in s'.flights && a in s'.flights[t].due ensures FlightOk(s', t, a) {
      assert FlightOk(s, t, a);
    }
    forall a | a in s'.accepted && a !in s'.windows && !Held(s', a) ensures Settled(s'.db, a, s'.accepted[a]) {
      StillHeld(s, thread, s', a);
    }
  }

  lemma TickKeepsInv(minutes: int, s: State, to: int, s': State)
    requires Inv(minutes, s) && Next(minutes, s, Tick(to), s')
    ensures Inv(minutes, s')
  {
    forall t, a | t in s'.flights && a in s'.flights[t].due ensures FlightOk(s', t, a) {
      assert FlightOk(s, t, a);
    }
    forall g: Group, a: int | (g, a) in s'.db ensures RowOk(minutes, s', g, a) {
      assert RowOk(minutes, s, g, a);
    }
    forall a | Held(s, a) ensures Held(s', a) {
      var t :| t in s.flights && a in s.flights[t].due;
      assert t in s'.flights && a in s'.flights[t].due;
    }
  }

  lemma StepKeepsInv(minutes: int, s: State, a: Action, s': State)
    requires minutes >= 1 && Inv(minutes, s) && Next(minutes, s, a, s')
    ensures Inv(minutes, s')
  {
    match a
    case Tick(to) => TickKeepsInv(minutes, s, to, s');
    case Buffer(hit) => BufferKeepsInv(minutes, s, hit, s');
    case Pop(thread) => PopKeepsInv(minutes, s, thread, s');
    case Commit(thread) => CommitKeepsInv(minutes, s, thread, s');
    case Finish(thread) => FinishKeepsInv(minutes, s, thread, s');
    case Fail(thread) => FailKeepsInv(minutes, s, thread, s');
  }

  lemma {:induction false} RunKeepsInv(minutes: int, run: seq<State>, i: nat)
    requires minutes >= 1 && Run(minutes, run) && i < |run|
    ensures Inv(minutes, run[i])
    decreases i
  {
    if i > 0 {
      RunKeepsInv(minutes, run, i - 1);
      assert Step(minutes, run[i - 1], run[i - 1 + 1]);
      var a :| Next(minutes, run[i - 1], a, run[i]);
      StepKeepsInv(minutes, run[i - 1], a, run[i]);
    }
  }

  /** The hit is still on its way, or its group's digest of its window has it. */
  ghost predicate Kept(s: State, a: int, h: Hit) {
    || (a in s.windows && h in s.windows[a].hits)
    || (exists t :: t in s.flights && a in s.flights[t].due && h in s.flights[t].due[a].hits)
    || ((h.group, a) in s.db && h in s.db[(h.group, a)])
  }

  ghost predicate NothingLost(s: State) {
    forall a, h :: a in s.accepted && h in s.accepted[a] ==> Kept(s, a, h)
  }

  lemma InvKeepsHits(minutes: int, s: State)
    requires Inv(minutes, s)
    ensures NothingLost(s)
  {
    forall a, h | a in s.accepted && h in s.accepted[a] ensures Kept(s, a, h) {
      if a !in s.windows {
        if Held(s, a) {
          var t :| t in s.flights && a in s.flights[t].due;
          assert FlightOk(s, t, a);
        } else {
          assert h in OfGroup(s.accepted[a], h.group);
          assert RowOk(minutes, s, h.group, a);
        }
      }
    }
  }

  /** Over every interleaving: no accepted hit is lost; a digest of a window holds exactly the hits its
      group accepted in that window, each once; and it is written only when the window is over. */
  lemma DigestConservation(minutes: int, run: seq<State>, i: nat)
    requires minutes >= 1 && Run(minutes, run) && i < |run|
    ensures NothingLost(run[i])
    ensures forall g: Group, a: int :: (g, a) in run[i].db && a in run[i].accepted ==>
              && run[i].db[(g, a)] == OfGroup(run[i].accepted[a], g)
              && DistinctKeys(run[i].accepted[a])
              && Ended(a, minutes, run[i].clock)
  {
    RunKeepsInv(minutes, run, i);
    InvKeepsHits(minutes, run[i]);
    forall g: Group, a: int | (g, a) in run[i].db ensures RowOk(minutes, run[i], g, a) {
    }
  }

  /** Every window that has ever accepted a hit starts at a multiple of the length. */
  lemma {:induction false} AcceptedAligned(minutes: int, run: seq<State>, i: nat, a: int)
    requires Run(minutes, run) && i < |run| && a in run[i].accepted
    ensures a == a / Width(minutes) * Width(minutes)
  {
    if i > 0 {
      assert Step(minutes, run[i - 1], run[i - 1 + 1]);
      var action :| Next(minutes, run[i - 1], action, run[i]);
      if a in run[i - 1].accepted {
        AcceptedAligned(minutes, run, i - 1, a);
      } else {
        StartIsAligned(run[i - 1].clock, minutes);
      }
    }
  }

  lemma StartIsAligned(now: int, minutes: int)
    ensures WindowStart(now, minutes) == WindowStart(now, minutes) / Width(minutes) * Width(minutes)
  {
    WindowIsStretch(now, minutes);
    QuotientIs(now / Width(minutes) * Width(minutes), Width(minutes), now / Width(minutes), 0);
  }

  /** The hit was buffered by step `m`, at an instant of its window's stretch. */
  ghost predicate EnteredAt(minutes: int, run: seq<State>, m: nat, a: int, h: Hit) {
    && m + 1 < |run| && Next(minutes, run[m], Buffer(h), run[m + 1])
    && a <= run[m].clock < a + Width(minutes)
  }

  lemma {:induction false} HitsEnterTheirStretch(minutes: int, run: seq<State>, i: nat, a: int, h: Hit) returns (m: nat)
    requires Run(minutes, run) && i < |run| && a in run[i].accepted && h in run[i].accepted[a]
    ensures m < i && EnteredAt(minutes, run, m, a, h)
  {
    assert Step(minutes, run[i - 1], run[i - 1 + 1]);
    var action :| Next(minutes, run[i - 1], action, run[i]);
    if a in run[i - 1].accepted && h in run[i - 1].accepted[a] {
      m := HitsEnterTheirStretch(minutes, run, i - 1, a, h);
    } else {
      m := i - 1;
      StretchHoldsNow(run[m].clock, minutes);
    }
  }

  lemma StretchHoldsNow(now: int, minutes: int)
    ensures WindowStart(now, minutes) <= now < WindowStart(now, minutes) + Width(minutes)
  {
    WindowIsStretch(now, minutes);
    assert now == now / Width(minutes) * Width(minutes) + now % Width(minutes);
  }

  /** Windows never overlap: two that have accepted hits are one, or lie apart by the length at least. So the
      digests of one group cover disjoint stretches of time, each of them at most once. */
  lemma WindowsAreDisjoint(minutes: int, run: seq<State>, i: nat, a: int, b: int)
    requires minutes >= 1 && Run(minutes, run) && i < |run| && a in run[i].accepted && b in run[i].accepted
    ensures a / (minutes * MINUTE) == b / (minutes * MINUTE) <==> a == b
    ensures a < b ==> a + minutes * MINUTE <= b
  {
    AcceptedAligned(minutes, run, i, a);
    AcceptedAligned(minutes, run, i, b);
    var w := Width(minutes);
    if a / w < b / w { NextMultiple(a / w, b / w, w); }
    if b / w < a / w { NextMultiple(b / w, a / w, w); }
  }

  /** Once no flush is in flight and no ended window is left in the buffer, every hit accepted in an ended
      window is in its digest. */
  lemma DrainedIsDelivered(minutes: int, run: seq<State>, i: nat, a: int, h: Hit)
    requires minutes >= 1 && Run(minutes, run) && i < |run|
    requires run[i].flights == map[] && forall b :: b in run[i].windows ==> !Ended(b, minutes, run[i].clock)
    requires a in run[i].accepted && h in run[i].accepted[a] && Ended(a, minutes, run[i].clock)
    ensures (h.group, a) in run[i].db && h in run[i].db[(h.group, a)]
  {
    RunKeepsInv(minutes, run, i);
    InvKeepsHits(minutes, run[i]);
    assert Kept(run[i], a, h);
  }

  /** A flush at instant 0 of the window that starts there, which counts as ended when `minutes < 1`. */
  lemma FlushAtZero(minutes: int, w: Window, db: Digests, db': Digests, log: map<int, seq<Hit>>)
    requires minutes < 1 && Persisted(db, map[0 := w], db')
    ensures Step(minutes, State(0, map[0 := w], map[], db, log), State(0, map[], map[0 := Flight(map[0 := w], false)], db, log))
    ensures Step(minutes, State(0, map[], map[0 := Flight(map[0 := w], false)], db, log),
                 State(0, map[], map[0 := Flight(map[0 := w], true)], db', log))
    ensures Step(minutes, State(0, map[], map[0 := Flight(map[0 := w], true)], db', log), State(0, map[], map[], db', log))
  {
    var due: Windows := map[0 := w];
    var s1 := State(0, due, map[], db, log);
    var s2 := State(0, map[], map[0 := Flight(due, false)], db, log);
    var s3 := State(0, map[], map[0 := Flight(due, true)], db', log);
    var s4 := State(0, map[], map[], db', log);
    assert Ended(0, minutes, 0) && EndedWindows(due, minutes, 0) == due;
    assert Next(minutes, s1, Pop(0), s2);
    assert Next(minutes, s2, Commit(0), s3);
    assert Next(minutes, s3, Finish(0), s4);
  }

  lemma BufferAtZero(minutes: int, db: Digests, log: map<int, seq<Hit>>, hit: Hit)
    requires minutes < 1
    ensures Step(minutes, State(0, map[], map[], db, log),
                 State(0, map[0 := Add(Window(0, [], {}), hit)], map[], db, Logged(log, 0, hit)))
  {
    assert WindowStart(0, minutes) == 0;
    assert Next(minutes, State(0, map[], map[], db, log), Buffer(hit),
                State(0, map[0 := Add(Window(0, [], {}), hit)], map[], db, Logged(log, 0, hit)));
  }

  function WatchHit(newsId: nat): Hit {
    Hit(newsId, "S", "n", "t", Watch, None)
  }

  function Alone(hit: Hit): Window {
    Add(Window(0, [], {}), hit)
  }

  /** A window with one watch hit writes one row, and none when the row is there. */
  lemma OneRow(m: nat, n: nat)
    ensures var db: Digests := map[(Watch, 0) := [WatchHit(m)]];
            Persisted(map[], map[0 := Alone(WatchHit(m))], db) && Persisted(db, map[0 := Alone(WatchHit(n))], db)
  {
    forall k: nat ensures OfGroup(Alone(WatchHit(k)).hits, Watch) == [WatchHit(k)]
      && OfGroup(Alone(WatchHit(k)).hits, Sector) == [] && OfGroup(Alone(WatchHit(k)).hits, Opportunity) == []
    {
      assert Alone(WatchHit(k)).hits == [WatchHit(k)] && [WatchHit(k)][..0] == [];
    }
  }

  /** Nothing is buffered or in flight. */
  function Idle(db: Digests, log: map<int, seq<Hit>>): State {
    State(0, map[], map[], db, log)
  }

  /** From an idle state: `hit` is buffered, popped and written, which leaves the rows `db'`. */
  function Round(hit: Hit, db: Digests, db': Digests, log: map<int, seq<Hit>>): seq<State> {
    var due: Windows := map[0 := Alone(hit)];
    [State(0, due, map[], db, log), State(0, map[], map[0 := Flight(due, false)], db, log),
     State(0, map[], map[0 := Flight(due, true)], db', log), Idle(db', log)]
  }

  lemma RoundLinked(minutes: int, hit: Hit, db: Digests, db': Digests, log: map<int, seq<Hit>>)
    requires minutes < 1 && Persisted(db, map[0 := Alone(hit)], db')
    ensures Linked(minutes, [Idle(db, log)] + Round(hit, db, db', Logged(log, 0, hit)))
  {
    BufferAtZero(minutes, db, log, hit);
    FlushAtZero(minutes, Alone(hit), db, db', Logged(log, 0, hit));
  }

  lemma LinkedOn(minutes: int, a: seq<State>, b: seq<State>)
    requires a != [] && Linked(minutes, a) && Linked(minutes, [a[|a| - 1]] + b)
    ensures Linked(minutes, a + b)
  {
    var c := [a[|a| - 1]] + b;
    forall i | 0 <= i < |a + b| - 1 ensures Step(minutes, (a + b)[i], (a + b)[i + 1]) {
      if i >= |a| - 1 { assert Step(minutes, c[i - |a| + 1], c[i - |a| + 2]); }
    }
  }

  /** With a digest length below one minute the window a flush takes out can be entered again within the
      same minute, and its second flush finds the digest row already there: the second hit is gone. */
  lemma ShortDigestsLose(minutes: int) returns (run: seq<State>)
    requires minutes < 1
    ensures Run(minutes, run) && !NothingLost(run[|run| - 1])
  {
    var db: Digests := map[(Watch, 0) := [WatchHit(1)]];
    var log1 := Logged(map[], 0, WatchHit(1));
    var log2 := Logged(log1, 0, WatchHit(2));
    OneRow(1, 2);
    RoundLinked(minutes, WatchHit(1), map[], db, map[]);
    RoundLinked(minutes, WatchHit(2), db, db, log1);
    var first := [Idle(map[], map[])] + Round(WatchHit(1), map[], db, log1);
    var second := Round(WatchHit(2), db, db, log2);
    LinkedOn(minutes, first, second);
    run := first + second;
    assert run[0] == Idle(map[], map[]);
    SecondHitLost(run[|run| - 1]);
  }

  lemma SecondHitLost(s: State)
    requires s == Idle(map[(Watch, 0) := [WatchHit(1)]], Logged(Logged(map[], 0, WatchHit(1)), 0, WatchHit(2)))
    ensures !NothingLost(s)
  {
    assert WatchHit(2) in s.accepted[0] && !Kept(s, 0, WatchHit(2));
  }

  /** The configured digest length decides: no run loses a hit exactly when it is at least one minute. */
  lemma NothingLostIff(minutes: int)
    ensures (forall run: seq<State>, i: nat :: Run(minutes, run) && i < |run| ==> NothingLost(run[i]))
      <==> minutes >= 1
  {
    if minutes >= 1 {
      forall run: seq<State>, i: nat | Run(minutes, run) && i < |run| ensures NothingLost(run[i]) {
        DigestConservation(minutes, run, i);
      }
    } else {
      var run := ShortDigestsLose(minutes);
      assert |run| - 1 < |run|;
    }
  }
}
