/** The in-memory windows that collect watch, sector and opportunity hits, and the digest rows that a
    flush writes from them. */
module DigestBuffer {
  import opened Prelude
  import opened Arithmetic

  datatype Group = Watch | Sector | Opportunity

  datatype HitKey = HitKey(group: Group, newsId: nat, symbol: string)

  datatype Hit = Hit(newsId: nat, symbol: string, name: string, title: string, group: Group, detail: Option<string>) {
    function Key(): HitKey {
      HitKey(group, newsId, symbol)
    }
  }

  datatype Window = Window(start: int, hits: seq<Hit>, keys: set<HitKey>)

  type Windows = map<int, Window>

  /** The digest rows by what their dedupe key says: the group and the window's start. */
  type Digests = map<(Group, int), seq<Hit>>

  const MINUTE: int := 60_000_000  // in microseconds, the resolution of the clock

  /** The start of the window that holds `now`: windows are aligned to the epoch, never shorter than a minute. */
  function WindowStart(now: int, minutes: int): int {
    var width := if minutes < 1 then 1 else minutes;
    var epochMinutes := now / MINUTE;
    (epochMinutes - epochMinutes % width) * MINUTE
  }

  /** `now` lies in its own window, so a window that has ended is never written again. */
  lemma WindowHoldsNow(now: int, minutes: int)
    requires minutes >= 1
    ensures WindowStart(now, minutes) <= now < WindowStart(now, minutes) + minutes * MINUTE
  {
    var e := now / MINUTE;
    assert 0 <= e % minutes < minutes;
    assert WindowStart(now, minutes) == (e - e % minutes) * MINUTE;
    assert e * MINUTE <= now < (e + 1) * MINUTE;
  }

  /** The length of a stretch of time that shares a window. */
  function Width(minutes: int): (w: int)
    ensures w > 0
  {
    if minutes < 1 then MINUTE else minutes * MINUTE
  }

  /** Windows are the stretches between the multiples of their length. */
  lemma WindowIsStretch(now: int, minutes: int)
    ensures WindowStart(now, minutes) == now / Width(minutes) * Width(minutes)
  {
    Regrouped(now, MINUTE, if minutes < 1 then 1 else minutes);
  }

  /** Two instants share a window exactly if no multiple of the length lies between them. */
  lemma SameWindowIff(a: int, b: int, minutes: int)
    ensures minutes >= 1 ==>
      (WindowStart(a, minutes) == WindowStart(b, minutes) <==> a / (minutes * MINUTE) == b / (minutes * MINUTE))
    ensures minutes < 1 ==> (WindowStart(a, minutes) == WindowStart(b, minutes) <==> a / MINUTE == b / MINUTE)
  {
    WindowIsStretch(a, minutes);
    WindowIsStretch(b, minutes);
    var w := Width(minutes);
    if a / w * w == b / w * w { SameFactor(a / w, b / w, w); }
  }

  function Accepts(ws: Windows, start: int, hit: Hit): bool {
    start !in ws || hit.Key() !in ws[start].keys
  }

  function Add(w: Window, hit: Hit): Window {
    Window(w.start, w.hits + [hit], w.keys + {hit.Key()})
  }

  /** The windows after buffering a hit. */
  function Buffered(ws: Windows, start: int, hit: Hit): Windows {
    var w := if start in ws then ws[start] else Window(start, [], {});
    ws[start := if hit.Key() in w.keys then w else Add(w, hit)]
  }

  /** A window has ended when its raw length has passed. */
  predicate Ended(start: int, minutes: int, now: int) {
    start + minutes * MINUTE <= now
  }

  function EndedWindows(ws: Windows, minutes: int, now: int): Windows {
    map s | s in ws && Ended(s, minutes, now) :: ws[s]
  }

  function Merge(w: Window, hits: seq<Hit>): Window
    decreases |hits|
  {
    if hits == [] then w else
      var rest := Merge(w, hits[..|hits| - 1]);
      var hit := hits[|hits| - 1];
      if hit.Key() in rest.keys then rest else Add(rest, hit)
  }

  /** Putting popped windows back: a window is re-entered, or its hits join the one that took its place. */
  function Restored(ws: Windows, due: Windows): Windows {
    map s | s in ws.Keys + due.Keys ::
      if s !in due then ws[s] else if s !in ws then due[s] else Merge(ws[s], due[s].hits)
  }

  function OfGroup(hits: seq<Hit>, g: Group): (r: seq<Hit>)
    ensures forall h :: h in r <==> h in hits && h.group == g
  {
    if hits == [] then [] else
      var rest := OfGroup(hits[..|hits| - 1], g);
      assert hits == hits[..|hits| - 1] + [hits[|hits| - 1]];
      if hits[|hits| - 1].group == g then rest + [hits[|hits| - 1]] else rest
  }

  lemma OfGroupOne(h: Hit, g: Group)
    ensures OfGroup([h], g) == if h.group == g then [h] else []
  {
    assert [h][..0] == [];
  }

  /** A group's hits of two stretches are those of the first and then those of the second. */
  lemma {:induction false} OfGroupConcat(a: seq<Hit>, b: seq<Hit>, g: Group)
    ensures OfGroup(a + b, g) == OfGroup(a, g) + OfGroup(b, g)
  {
    if b == [] {
      assert a + b == a;
    } else {
      assert (a + b)[..|a + b| - 1] == a + b[..|b| - 1];
      OfGroupConcat(a, b[..|b| - 1], g);
    }
  }

  /** A window's keys are those of its hits, each once. */
  ghost predicate Keyed(w: Window) {
    && (forall i, j :: 0 <= i < j < |w.hits| ==> w.hits[i].Key() != w.hits[j].Key())
    && (forall h :: h in w.hits ==> h.Key() in w.keys)
    && forall k :: k in w.keys ==> exists h :: h in w.hits && h.Key() == k
  }

  lemma AddKeeps(w: Window, hit: Hit)
    requires Keyed(w) && hit.Key() !in w.keys
    ensures Keyed(Add(w, hit)) && Add(w, hit).start == w.start
  {
    var all := w.hits + [hit];
    forall i, j | 0 <= i < j < |all| ensures all[i].Key() != all[j].Key() {
      if j == |w.hits| { assert w.hits[i] in w.hits; }
    }
    forall k | k in w.keys + {hit.Key()} ensures exists h :: h in all && h.Key() == k {
      if k == hit.Key() {
        assert hit in all;
      } else {
        var h :| h in w.hits && h.Key() == k;
        assert h in all;
      }
    }
  }

  /** What a window has become by taking in `hits`: its own stay in front, each missing key comes in once, and
      nothing else does. */
  ghost predicate TookIn(w: Window, hits: seq<Hit>, m: Window) {
    && Keyed(m) && m.start == w.start && w.hits <= m.hits && w.keys <= m.keys
    && (forall h :: h in hits ==> h.Key() in m.keys)
    && (forall h :: h in m.hits ==> h in w.hits || h in hits)
  }

  lemma TookInOneMore(w: Window, hits: seq<Hit>, m: Window, hit: Hit)
    requires TookIn(w, hits, m)
    ensures TookIn(w, hits + [hit], if hit.Key() in m.keys then m else Add(m, hit))
  {
    if hit.Key() !in m.keys { AddKeeps(m, hit); }
  }

  lemma {:induction false} MergeFacts(w: Window, hits: seq<Hit>)
    requires Keyed(w)
    ensures TookIn(w, hits, Merge(w, hits))
  {
    if hits != [] {
      var n := |hits| - 1;
      MergeFacts(w, hits[..n]);
      TookInOneMore(w, hits[..n], Merge(w, hits[..n]), hits[n]);
      assert hits == hits[..n] + [hits[n]];
    }
  }

  /** A window is over as soon as the clock has left its stretch, and not before. */
  lemma EndedIffPassed(entered: int, minutes: int, now: int)
    requires minutes >= 1 && entered <= now
    ensures Ended(WindowStart(entered, minutes), minutes, now) <==> WindowStart(entered, minutes) != WindowStart(now, minutes)
  {
    WindowIsStretch(entered, minutes);
    WindowIsStretch(now, minutes);
    LeftStretch(entered, now, Width(minutes));
  }

  /** One digest row for each window and group that has hits, unless the row exists already. */
  ghost predicate Persisted(db: Digests, due: Windows, after: Digests) {
    forall g: Group, s: int ::
      && ((g, s) in after <==> (g, s) in db || (s in due && OfGroup(due[s].hits, g) != []))
      && ((g, s) in after ==> after[(g, s)] == if (g, s) in db then db[(g, s)] else OfGroup(due[s].hits, g))
  }

  ghost predicate WellKeyed(ws: Windows) {
    forall s :: s in ws ==> ws[s].start == s
  }

  /** The windows of a list, by start. */
  function ByStart(due: seq<Window>): Windows {
    if due == [] then map[] else ByStart(due[..|due| - 1])[due[|due| - 1].start := due[|due| - 1]]
  }

  ghost predicate DistinctStarts(due: seq<Window>) {
    forall i, j :: 0 <= i < j < |due| ==> due[i].start != due[j].start
  }

  lemma {:induction false} ByStartFacts(due: seq<Window>)
    requires DistinctStarts(due)
    ensures WellKeyed(ByStart(due))
    ensures forall i :: 0 <= i < |due| ==> due[i].start in ByStart(due) && ByStart(due)[due[i].start] == due[i]
    ensures forall s :: s in ByStart(due) ==> exists i :: 0 <= i < |due| && due[i].start == s
  {
    if due != [] {
      var n := |due| - 1;
      ByStartFacts(due[..n]);
      assert forall i :: 0 <= i < n ==> due[..n][i] == due[i];
      forall s | s in ByStart(due) ensures exists i :: 0 <= i < |due| && due[i].start == s {
        if s != due[n].start {
          var i :| 0 <= i < n && due[..n][i].start == s;
          assert due[i].start == s;
        } else {
          assert due[n].start == s;
        }
      }
    }
  }

  lemma MergeStep(w: Window, hits: seq<Hit>, k: nat)
    requires k < |hits|
    ensures Merge(w, hits[..k + 1]) ==
      var m := Merge(w, hits[..k]);
      if hits[k].Key() in m.keys then m else Add(m, hits[k])
  {
    assert hits[..k + 1][..k] == hits[..k];
  }

  lemma NextStart(due: seq<Window>, k: nat)
    requires DistinctStarts(due) && k < |due|
    ensures ByStart(due[..k + 1]) == ByStart(due[..k])[due[k].start := due[k]]
    ensures due[k].start !in ByStart(due[..k])
  {
    assert due[..k + 1][..k] == due[..k];
    ByStartFacts(due[..k]);
  }

  lemma RestoreOne(ws: Windows, due: Windows, w: Window)
    requires w.start !in due
    ensures Restored(ws, due[w.start := w]) ==
      Restored(ws, due)[w.start := if w.start in ws then Merge(ws[w.start], w.hits) else w]
    ensures w.start in Restored(ws, due) <==> w.start in ws
    ensures w.start in ws ==> Restored(ws, due)[w.start] == ws[w.start]
  {
    var l := Restored(ws, due[w.start := w]);
    var r := Restored(ws, due)[w.start := if w.start in ws then Merge(ws[w.start], w.hits) else w];
    assert l.Keys == r.Keys;
    assert forall s :: s in l ==> l[s] == r[s];
  }

  /** The buffer of the alert service. Every method is one critical section under the digest lock, with the
      clock read inside it. */
  class DigestService {
    const minutes: int
    var windows: Windows

    constructor (minutes: int)
      ensures this.minutes == minutes && windows == map[]
    {
      this.minutes := minutes;
      windows := map[];
    }

    method BufferHit(hit: Hit, now: int)
      modifies this
      ensures windows == Buffered(old(windows), WindowStart(now, minutes), hit)
    {
      var start := WindowStart(now, minutes);
      if start !in windows {
        windows := windows[start := Window(start, [], {})];
      }
      var window := windows[start];
      if hit.Key() !in window.keys {
        windows := windows[start := Add(window, hit)];
      }
    }

    /** Takes the ended windows out, in whatever order the dictionary holds them. */
    method PopEnded(now: int) returns (due: seq<Window>)
      requires WellKeyed(windows)
      modifies this
      ensures DistinctStarts(due) && ByStart(due) == EndedWindows(old(windows), minutes, now)
      ensures windows == old(windows) - EndedWindows(old(windows), minutes, now).Keys
      ensures WellKeyed(windows)
    {
      due := [];
      ghost var ended := EndedWindows(windows, minutes, now);
      var rest := set s | s in windows && Ended(s, minutes, now);
      while rest != {}
        invariant rest == ended.Keys - ByStart(due).Keys && DistinctStarts(due)
        invariant forall s :: s in ByStart(due) ==> s in ended && ByStart(due)[s] == ended[s]
        invariant windows == old(windows) - ByStart(due).Keys
        decreases rest
      {
        var s :| s in rest;
        ByStartFacts(due);
        assert (due + [windows[s]])[..|due|] == due;
        due := due + [windows[s]];
        windows := windows - {s};
        rest := rest - {s};
      }
      assert ended.Keys - ByStart(due).Keys == {};
      forall s ensures s in ended.Keys <==> s in ByStart(due).Keys {
        assert s in ended.Keys && s !in ByStart(due).Keys ==> s in ended.Keys - ByStart(due).Keys;
      }
      assert ByStart(due) == ended;
    }

    /** Puts popped windows back after a failed flush. */
    method RestoreWindows(due: seq<Window>)
      requires DistinctStarts(due)
      modifies this
      ensures windows == Restored(old(windows), ByStart(due))
    {
      var k := 0;
      ghost var before := windows;
      assert Restored(before, map[]) == before;
      while k < |due|
        invariant 0 <= k <= |due|
        invariant windows == Restored(before, ByStart(due[..k]))
      {
        NextStart(due, k);
        RestoreWindow(due[k], before, ByStart(due[..k]));
        k := k + 1;
      }
      assert due[..k] == due;
    }

    /** The body of its loop: a window that has been entered again takes in the hits it does not have. */
    method RestoreWindow(window: Window, ghost before: Windows, ghost m: Windows)
      requires window.start !in m && windows == Restored(before, m)
      modifies this
      ensures windows == Restored(before, m[window.start := window])
    {
      RestoreOne(before, m, window);
      if window.start !in windows {
        windows := windows[window.start := window];
        return;
      }
      var existing := windows[window.start];
      var i := 0;
      while i < |window.hits|
        invariant 0 <= i <= |window.hits|
        invariant existing == Merge(before[window.start], window.hits[..i])
        invariant windows == Restored(before, m)
      {
        MergeStep(before[window.start], window.hits, i);
        if window.hits[i].Key() !in existing.keys {
          existing := Add(existing, window.hits[i]);
        }
        i := i + 1;
      }
      assert window.hits[..i] == window.hits;
      windows := windows[window.start := existing];
    }

    /** `flush_watch_digest` with no other thread in between: the three outcomes of a flush. */
    method Flush(db: Digests, now: int, fails: bool, committedFirst: bool) returns (after: Digests, created: nat)
      requires WellKeyed(windows)
      modifies this
      ensures var due := EndedWindows(old(windows), minutes, now);
              && (fails && !committedFirst ==> after == db)
              && (!fails || committedFirst ==> Persisted(db, due, after))
              && windows == if fails then Restored(old(windows) - due.Keys, due) else old(windows) - due.Keys
      ensures created == if fails then 0 else |after| - |db|
    {
      after, created := db, 0;
      var due := PopEnded(now);
      if due == [] {
        assert ByStart(due) == map[];
        return;
      }
      if !fails || committedFirst {
        after, created := WriteDigests(db, due);
      }
      if fails {
        RestoreWindows(due);
        created := 0;
      }
    }
  }

  function GroupAt(i: nat): Group
    requires i < 3
  {
    if i == 0 then Watch else if i == 1 then Sector else Opportunity
  }

  /** The rows of one flush transaction. */
  method WriteDigests(db: Digests, due: seq<Window>) returns (after: Digests, created: nat)
    requires DistinctStarts(due)
    ensures Persisted(db, ByStart(due), after) && |after| == |db| + created
  {
    after, created := db, 0;
    var k := 0;
    while k < |due|
      invariant 0 <= k <= |due| && |after| == |db| + created
      invariant Persisted(db, ByStart(due[..k]), after)
    {
      assert due[..k + 1][..k] == due[..k];
      ByStartFacts(due[..k]);
      var window := due[k];
      assert window.start !in ByStart(due[..k]);
      var i := 0;
      ghost var start := after;
      while i < 3
        invariant 0 <= i <= 3 && |after| == |db| + created
        invariant WindowWritten(start, window, i, after)
      {
        var g := GroupAt(i);
        var hits := OfGroup(window.hits, g);
        if hits != [] && (g, window.start) !in after {
          after := after[(g, window.start) := hits];
          created := created + 1;
        }
        i := i + 1;
      }
      WindowPersisted(db, due, k, start, after);
      k := k + 1;
    }
    assert due[..k] == due;
  }

  function Rank(g: Group): nat {
    match g case Watch => 0 case Sector => 1 case Opportunity => 2
  }

  /** The rows of the first `i` groups of a window are there. */
  ghost predicate WindowWritten(before: Digests, w: Window, i: nat, after: Digests) {
    forall g: Group, s: int ::
      && ((g, s) in after <==> (g, s) in before || (s == w.start && Rank(g) < i && OfGroup(w.hits, g) != []))
      && ((g, s) in after ==> after[(g, s)] == if (g, s) in before then before[(g, s)] else OfGroup(w.hits, g))
  }

  lemma WindowPersisted(db: Digests, due: seq<Window>, k: nat, before: Digests, after: Digests)
    requires k < |due| && DistinctStarts(due)
    requires Persisted(db, ByStart(due[..k]), before) && WindowWritten(before, due[k], 3, after)
    ensures Persisted(db, ByStart(due[..k + 1]), after)
  {
    assert due[..k + 1][..k] == due[..k];
    ByStartFacts(due[..k]);
    var m, n := ByStart(due[..k]), ByStart(due[..k + 1]);
    assert n == m[due[k].start := due[k]];
    forall g: Group, s: int
      ensures (g, s) in after <==> (g, s) in db || (s in n && OfGroup(n[s].hits, g) != [])
      ensures (g, s) in after ==> after[(g, s)] == if (g, s) in db then db[(g, s)] else OfGroup(n[s].hits, g)
    {
      assert Rank(g) < 3;
    }
  }
}
