/** The news scheduler: each source is fetched at its own cadence, less often after hard failures and after a
    long series of empty batches. */
module SourceScheduler {
  import opened Prelude
  import opened Arithmetic

  datatype Source = Source(name: string, cadence: nat, disabled: bool)

  /** The outcome of one fetch, with the status word of the ingestion service. */
  datatype Fetch = Fetch(name: string, status: string)

  datatype Kind = Success | Empty | Failure

  function KindOf(status: string): Kind {
    if status == "ok" || status == "not_modified" then Success else if status == "empty" then Empty else Failure
  }

  /** The words that count as a success, the one that counts as an empty batch, and everything else. */
  lemma KindsOfWords(status: string)
    ensures KindOf(status) == Success <==> status in {"ok", "not_modified"}
    ensures KindOf(status) == Empty <==> status == "empty"
    ensures KindOf("http_error") == Failure
  {
    assert "ok"[0] == 'o' && "not_modified"[0] == 'n' && "empty"[0] == 'e' && "http_error"[0] == 'h';
  }

  /** The last status reported under a name; a source without one counts as failed. */
  function StatusFor(results: seq<Fetch>, name: string): string {
    if results == [] then "http_error" else
      var last := results[|results| - 1];
      if last.name == name then last.status else StatusFor(results[..|results| - 1], name)
  }

  lemma {:induction false} StatusIs(results: seq<Fetch>, name: string)
    ensures if exists i :: 0 <= i < |results| && results[i].name == name
      then exists i :: 0 <= i < |results| && results[i] == Fetch(name, StatusFor(results, name))
                       && forall j :: i < j < |results| ==> results[j].name != name
      else StatusFor(results, name) == "http_error"
  {
    if results != [] {
      var n := |results| - 1;
      if results[n].name == name {
        assert results[n] == Fetch(name, StatusFor(results, name));
      } else {
        StatusIs(results[..n], name);
        assert forall i :: 0 <= i < n ==> results[..n][i] == results[i];
        if i :| 0 <= i < n && results[..n][i] == Fetch(name, StatusFor(results[..n], name))
                && forall j :: i < j < n ==> results[..n][j].name != name {
          assert results[i] == Fetch(name, StatusFor(results, name));
        }
      }
    }
  }

  /** How many outcomes at the end of a history are of one kind. */
  function TrailingRun(h: seq<Kind>, k: Kind): (n: nat)
    ensures n <= |h|
  {
    if h == [] || h[|h| - 1] != k then 0 else 1 + TrailingRun(h[..|h| - 1], k)
  }

  /** That number is the only `n` such that the last `n` outcomes are of the kind and the one before is not. */
  lemma {:induction false} TrailingRunIs(h: seq<Kind>, k: Kind, n: nat)
    requires n <= |h|
    ensures n == TrailingRun(h, k) <==>
            (forall i :: |h| - n <= i < |h| ==> h[i] == k) && (n < |h| ==> h[|h| - n - 1] != k)
  {
    if h == [] || h[|h| - 1] != k {
    } else if n == 0 {
    } else {
      var t := h[..|h| - 1];
      TrailingRunIs(t, k, n - 1);
      assert (forall i :: |h| - n <= i < |h| ==> h[i] == k) <==> (forall i :: |t| - (n - 1) <= i < |t| ==> t[i] == k) by {
        if forall i :: |h| - n <= i < |h| ==> h[i] == k {
          forall i | |t| - (n - 1) <= i < |t| ensures t[i] == k { assert t[i] == h[i]; }
        }
        if forall i :: |t| - (n - 1) <= i < |t| ==> t[i] == k {
          forall i | |h| - n <= i < |h| ensures h[i] == k { if i < |t| { assert t[i] == h[i]; } }
        }
      }
    }
  }

  function Min(a: nat, b: nat): nat {
    if a <= b then a else b
  }

  /** How many cadences a source waits after `failures` hard failures or `empties` empty batches in a row. */
  function Multiplier(failures: nat, empties: nat, threshold: nat, max: nat): nat {
    if failures > 0 then Min(Pow2(failures), max)
    else if empties >= threshold then Min(Pow2(empties - threshold + 1), max)
    else 1
  }

  /** The wait is between one and `max` cadences and never shrinks while a series of one kind grows. */
  lemma MultiplierFacts(failures: nat, empties: nat, threshold: nat, max: nat)
    requires threshold >= 1 && max >= 1
    ensures 1 <= Multiplier(failures, empties, threshold, max) <= max
    ensures Multiplier(failures, 0, threshold, max) <= Multiplier(failures + 1, 0, threshold, max)
    ensures Multiplier(0, empties, threshold, max) <= Multiplier(0, empties + 1, threshold, max)
  {
    Pow2Monotone(failures, failures + 1);
    if empties >= threshold { Pow2Monotone(empties - threshold + 1, empties + 1 - threshold + 1); }
  }

  /** Twice as much, up to the maximum. */
  function Doubled(m: nat, max: nat): nat {
    if 2 * m > max then max else 2 * m
  }

  /** A first failure doubles the wait and each further one doubles it again, up to the maximum; so does the
      empty batch that reaches the threshold and each one after it, and fewer change nothing. */
  lemma DelayDoubles(n: nat, threshold: nat, max: nat)
    requires threshold >= 1 && max >= 1
    ensures Multiplier(n + 1, 0, threshold, max) == Doubled(Multiplier(n, 0, threshold, max), max)
    ensures n < threshold ==> Multiplier(0, n, threshold, max) == 1
    ensures n + 1 >= threshold ==> Multiplier(0, n + 1, threshold, max) == Doubled(Multiplier(0, n, threshold, max), max)
  {
    assert Pow2(0) == 1 && Pow2(1) == 2;
  }

  /** What happened to a source: its outcomes in order, and when and with which cadence the last was noted. */
  datatype Past = Past(kinds: seq<Kind>, at: real, cadence: nat)

  function KindsOf(past: map<string, Past>, name: string): seq<Kind> {
    if name in past then past[name].kinds else []
  }

  /** The history after one cycle over `due`, in order. */
  function Recorded(past: map<string, Past>, due: seq<Source>, results: seq<Fetch>, now: real): map<string, Past> {
    if due == [] then past else
      var s := due[|due| - 1];
      var p := Recorded(past, due[..|due| - 1], results, now);
      p[s.name := Past(KindsOf(p, s.name) + [KindOf(StatusFor(results, s.name))], now, s.cadence)]
  }

  lemma RecordedNext(past: map<string, Past>, due: seq<Source>, i: nat, results: seq<Fetch>, now: real)
    requires i < |due|
    ensures var p := Recorded(past, due[..i], results, now);
            Recorded(past, due[..i + 1], results, now) ==
            p[due[i].name := Past(KindsOf(p, due[i].name) + [KindOf(StatusFor(results, due[i].name))], now, due[i].cadence)]
  {
    assert due[..i + 1][..i] == due[..i];
  }

  predicate Named(sources: seq<Source>, name: string) {
    exists i :: 0 <= i < |sources| && sources[i].name == name
  }

  /** A source that was not due keeps its history. */
  lemma {:induction false} OthersKeep(past: map<string, Past>, due: seq<Source>, results: seq<Fetch>, now: real, name: string)
    requires !Named(due, name)
    ensures var r := Recorded(past, due, results, now);
            (name in r <==> name in past) && (name in past ==> r[name] == past[name])
  {
    if due != [] {
      assert due[|due| - 1].name != name;
      assert !Named(due[..|due| - 1], name);
      OthersKeep(past, due[..|due| - 1], results, now, name);
    }
  }

  /** When source names are distinct, each due source gets exactly its own outcome, noted at `now`. */
  lemma {:induction false} EachDueGetsOne(past: map<string, Past>, due: seq<Source>, results: seq<Fetch>, now: real, k: nat)
    requires k < |due|
    requires forall i, j :: 0 <= i < j < |due| ==> due[i].name != due[j].name
    ensures var r := Recorded(past, due, results, now);
            var s := due[k];
            s.name in r && r[s.name] == Past(KindsOf(past, s.name) + [KindOf(StatusFor(results, s.name))], now, s.cadence)
  {
    var front := due[..|due| - 1];
    if k == |due| - 1 {
      assert !Named(front, due[k].name);
      OthersKeep(past, front, results, now, due[k].name);
    } else {
      assert front[k] == due[k];
      EachDueGetsOne(past, front, results, now, k);
      assert due[|due| - 1].name != due[k].name;
    }
  }

  function Streak(streaks: map<string, nat>, name: string): nat {
    if name in streaks then streaks[name] else 0
  }

  /** The streaks are the lengths of the trailing runs of one kind. */
  ghost predicate CountsRuns(streaks: map<string, nat>, past: map<string, Past>, k: Kind) {
    forall n: string :: Streak(streaks, n) == TrailingRun(KindsOf(past, n), k)
  }

  /** A new outcome of the kind extends its run and any other ends it. */
  lemma CountStep(streaks: map<string, nat>, past: map<string, Past>, k: Kind, name: string, kind: Kind, at: real, cadence: nat)
    requires CountsRuns(streaks, past, k)
    ensures CountsRuns(streaks[name := if kind == k then Streak(streaks, name) + 1 else 0],
                       past[name := Past(KindsOf(past, name) + [kind], at, cadence)], k)
  {
    RunGrows(KindsOf(past, name), kind, k);
    var past' := past[name := Past(KindsOf(past, name) + [kind], at, cadence)];
    var streaks' := streaks[name := if kind == k then Streak(streaks, name) + 1 else 0];
    forall n: string ensures Streak(streaks', n) == TrailingRun(KindsOf(past', n), k) {
      if n != name { assert KindsOf(past', n) == KindsOf(past, n) && Streak(streaks', n) == Streak(streaks, n); }
    }
  }

  lemma RunGrows(kinds: seq<Kind>, kind: Kind, k: Kind)
    ensures TrailingRun(kinds + [kind], k) == if kind == k then TrailingRun(kinds, k) + 1 else 0
  {
    assert (kinds + [kind])[..|kinds|] == kinds;
  }

  /** Every source with a history is next due its delay after the last outcome. */
  ghost predicate OnSchedule(nextDueAt: map<string, real>, past: map<string, Past>, threshold: nat, max: nat) {
    && (forall n: string :: n in nextDueAt <==> n in past)
    && (forall n: string :: n in past ==> nextDueAt[n] == past[n].at + Wait(past[n].kinds, past[n].cadence, threshold, max))
  }

  /** The delay that a history calls for. */
  function Wait(kinds: seq<Kind>, cadence: nat, threshold: nat, max: nat): real {
    (cadence * Multiplier(TrailingRun(kinds, Failure), TrailingRun(kinds, Empty), threshold, max)) as real
  }


  lemma ScheduleStep(nextDueAt: map<string, real>, past: map<string, Past>, name: string, p: Past, threshold: nat, max: nat)
    requires OnSchedule(nextDueAt, past, threshold, max)
    ensures OnSchedule(nextDueAt[name := p.at + Wait(p.kinds, p.cadence, threshold, max)], past[name := p], threshold, max)
  {
  }

  class Scheduler {
    const maxMultiplier: nat
    const threshold: nat
    var nextDueAt: map<string, real>
    var failureStreak: map<string, nat>
    var emptyStreak: map<string, nat>
    /** Everything ever recorded. */
    ghost var past: map<string, Past>

    /** The streaks are the lengths of the trailing runs of failures and of empty batches, and every source
        with a history is next due its delay after the last outcome. */
    ghost predicate Valid()
      reads this
    {
      && maxMultiplier >= 1 && threshold >= 1
      && CountsRuns(failureStreak, past, Failure) && CountsRuns(emptyStreak, past, Empty)
      && OnSchedule(nextDueAt, past, threshold, maxMultiplier)
    }

    constructor (maxMultiplier: int, threshold: int)
      ensures Valid() && past == map[]
      ensures this.maxMultiplier == if maxMultiplier < 1 then 1 else maxMultiplier
      ensures this.threshold == if threshold < 1 then 1 else threshold
    {
      this.maxMultiplier := if maxMultiplier < 1 then 1 else maxMultiplier;
      this.threshold := if threshold < 1 then 1 else threshold;
      nextDueAt, failureStreak, emptyStreak, past := map[], map[], map[], map[];
    }

    predicate IsDue(s: Source, now: real)
      reads this
    {
      !s.disabled && (if s.name in nextDueAt then nextDueAt[s.name] else 0.0) <= now
    }

    function Due(sources: seq<Source>, now: real): seq<Source>
      reads this
    {
      if sources == [] then [] else
        Due(sources[..|sources| - 1], now)
        + if IsDue(sources[|sources| - 1], now) then [sources[|sources| - 1]] else []
    }

    /** Fetched are exactly the listed sources that are due. */
    lemma {:induction false} DueAreDue(sources: seq<Source>, now: real, s: Source)
      ensures s in Due(sources, now) <==> s in sources && IsDue(s, now)
    {
      if sources != [] { DueAreDue(sources[..|sources| - 1], now, s); }
    }

    /** `due_sources` */
    method DueSources(sources: seq<Source>, now: real) returns (due: seq<Source>)
      ensures due == Due(sources, now)
    {
      due := [];
      var i := 0;
      while i < |sources|
        invariant 0 <= i <= |sources| && due == Due(sources[..i], now)
      {
        assert sources[..i + 1][..i] == sources[..i];
        if IsDue(sources[i], now) { due := due + [sources[i]]; }
        i := i + 1;
      }
      assert sources[..i] == sources;
    }

    /** `backoff_delay_seconds` */
    function BackoffDelay(s: Source): real
      reads this
    {
      (s.cadence * Multiplier(Streak(failureStreak, s.name), Streak(emptyStreak, s.name), threshold, maxMultiplier)) as real
    }

    /** One outcome: a success clears both streaks, a failure or an empty batch extends its own and clears
        the other. */
    method Record(s: Source, status: string, now: real)
      requires Valid()
      modifies this
      ensures Valid()
      ensures past == old(past)[s.name := Past(KindsOf(old(past), s.name) + [KindOf(status)], now, s.cadence)]
    {
      ghost var kind := KindOf(status);
      ghost var after := past[s.name := Past(KindsOf(past, s.name) + [kind], now, s.cadence)];
      CountStep(failureStreak, past, Failure, s.name, kind, now, s.cadence);
      CountStep(emptyStreak, past, Empty, s.name, kind, now, s.cadence);
      CountStreaks(s.name, KindOf(status));
      var delay := BackoffDelay(s);
      assert delay == Wait(after[s.name].kinds, s.cadence, threshold, maxMultiplier) by {
        assert Streak(failureStreak, s.name) == TrailingRun(KindsOf(after, s.name), Failure);
        assert Streak(emptyStreak, s.name) == TrailingRun(KindsOf(after, s.name), Empty);
      }
      ScheduleStep(nextDueAt, past, s.name, after[s.name], threshold, maxMultiplier);
      nextDueAt := nextDueAt[s.name := now + delay];
      past := after;
    }

    /** The branch on the status. */
    method CountStreaks(name: string, kind: Kind)
      modifies this`failureStreak, this`emptyStreak
      ensures failureStreak
           == old(failureStreak)[name := if kind == Failure then Streak(old(failureStreak), name) + 1 else 0]
      ensures emptyStreak == old(emptyStreak)[name := if kind == Empty then Streak(old(emptyStreak), name) + 1 else 0]
    {
      match kind
      case Success =>
        failureStreak := failureStreak[name := 0];
        emptyStreak := emptyStreak[name := 0];
      case Empty =>
        failureStreak := failureStreak[name := 0];
        emptyStreak := emptyStreak[name := Streak(emptyStreak, name) + 1];
      case Failure =>
        failureStreak := failureStreak[name := Streak(failureStreak, name) + 1];
        emptyStreak := emptyStreak[name := 0];
    }

    /** `do_cycle`, given the sources, the results (none if the refresh as a whole raised) and the two
        readings of the clock. */
    method DoCycle(sources: seq<Source>, results: Option<seq<Fetch>>, started: real, now: real) returns (raised: bool)
      requires Valid()
      modifies this
      ensures Valid()
      ensures raised == (old(Due(sources, started)) != [] && results.None?)
      ensures past == if results.None? then old(past)
                      else Recorded(old(past), old(Due(sources, started)), results.value, now)
    {
      var due := DueSources(sources, started);
      if due == [] {
        return false;
      }
      if results.None? {
        return true;
      }
      var byName := IndexByName(results.value);
      var i := 0;
      while i < |due|
        invariant 0 <= i <= |due| && Valid()
        invariant past == Recorded(old(past), due[..i], results.value, now)
      {
        var name := due[i].name;
        var status := if name in byName then byName[name] else "http_error";
        RecordedNext(old(past), due, i, results.value, now);
        Record(due[i], status, now);
        i := i + 1;
      }
      assert due[..i] == due;
      return false;
    }

    /** A source with a history is not due before one cadence has passed since its last outcome, and is due,
        unless disabled, once `maxMultiplier` cadences have. */
    lemma DueWindow(s: Source, now: real)
      requires Valid() && s.name in past && past[s.name].cadence == s.cadence
      ensures now < past[s.name].at + s.cadence as real ==> !IsDue(s, now)
      ensures now >= past[s.name].at + (s.cadence * maxMultiplier) as real ==> IsDue(s, now) || s.disabled
      ensures IsDue(s, now) <==> !s.disabled && now >= past[s.name].at + Wait(past[s.name].kinds, s.cadence, threshold, maxMultiplier)
    {
      var f, e := TrailingRun(past[s.name].kinds, Failure), TrailingRun(past[s.name].kinds, Empty);
      MultiplierFacts(f, e, threshold, maxMultiplier);
      Stretched(s.cadence, Multiplier(f, e, threshold, maxMultiplier), maxMultiplier);
    }

    /** A source that has never been noted is due at once, unless it is disabled. */
    lemma NewIsDue(s: Source, now: real)
      requires Valid() && s.name !in past && now >= 0.0
      ensures IsDue(s, now) <==> !s.disabled
    {
    }

    /** No source ever has both streaks. */
    lemma OneStreakAtMost(name: string)
      requires Valid()
      ensures Streak(failureStreak, name) == 0 || Streak(emptyStreak, name) == 0
    {
      var kinds := KindsOf(past, name);
      assert TrailingRun(kinds, Failure) == 0 || TrailingRun(kinds, Empty) == 0;
    }
  }

  lemma Stretched(cadence: nat, m: nat, max: nat)
    requires 1 <= m <= max
    ensures cadence <= cadence * m <= cadence * max
  {
    assert cadence * (m - 1) >= 0 && cadence * (max - m) >= 0;
  }

  method IndexByName(results: seq<Fetch>) returns (byName: map<string, string>)
    ensures forall n: string :: (if n in byName then byName[n] else "http_error") == StatusFor(results, n)
  {
    byName := map[];
    var i := 0;
    while i < |results|
      invariant 0 <= i <= |results|
      invariant forall n: string :: (if n in byName then byName[n] else "http_error") == StatusFor(results[..i], n)
    {
      assert results[..i + 1][..i] == results[..i];
      byName := byName[results[i].name := results[i].status];
      i := i + 1;
    }
    assert results[..i] == results;
  }
}
