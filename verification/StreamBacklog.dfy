/** What a process that joins a stream does with the entries that are there already. */
module StreamBacklog {
  import opened Prelude
  import opened StreamConsumer
  import opened StreamDelivery

  /** At step `i` process `p` resolves the "$" of stream `n`; `info` holds the streams for which XINFO succeeds. */
  ghost predicate Joins(run: seq<State>, i: nat, p: nat, info: map<string, nat>, n: string) {
    && i + 1 < |run| && Next(run[i], Resolving(p, info), run[i + 1])
    && n in run[i].procs[p].cursors && run[i].procs[p].cursors[n] == Dollar
  }

  /** Process `p` does not restart up to state `l`. */
  ghost predicate Keeps(run: seq<State>, i: nat, l: nat, p: nat, n: string) {
    l < |run| && forall m :: i < m <= l ==> p < |run[m].procs| && n in run[m].procs[p].starts
  }

  lemma StartSet(run: seq<State>, i: nat, p: nat, info: map<string, nat>, n: string)
    requires Run(run) && Joins(run, i, p, info, n)
    ensures p < |run[i + 1].procs| && n in run[i + 1].procs[p].starts
    ensures run[i + 1].procs[p].starts[n] == if n in info then |LogOf(run[i].logs, n)| else 0
  {
    RunKeepsInv(run, i);
    assert ProcOk(run[i].logs, run[i].procs[p]);
    assert Delivered(run[i].logs, run[i].procs[p], n);
  }

  lemma StepKeepsStart(s: State, a: Action, s': State, p: nat, n: string)
    requires Next(s, a, s') && p < |s.procs| && n in s.procs[p].starts
    ensures p < |s'.procs| && (n in s'.procs[p].starts ==> s'.procs[p].starts[n] == s.procs[p].starts[n])
    ensures LogOf(s.logs, n) <= LogOf(s'.logs, n)
  {
    match a
    case Publish(_, _, _, _) =>
    case Append(_, _) =>
    case Resolving(_, _) =>
    case Reading(_, _) =>
    case Restart(_) =>
  }

  lemma StartStaysOnce(s: State, s': State, p: nat, n: string)
    requires Step(s, s') && p < |s.procs| && n in s.procs[p].starts
    requires p < |s'.procs| && n in s'.procs[p].starts
    ensures s'.procs[p].starts[n] == s.procs[p].starts[n] && LogOf(s.logs, n) <= LogOf(s'.logs, n)
  {
    var a :| Next(s, a, s');
    StepKeepsStart(s, a, s', p, n);
  }

  lemma {:induction false} StartStays(run: seq<State>, i: nat, l: nat, p: nat, n: string)
    requires Run(run) && i + 1 <= l && Keeps(run, i, l, p, n)
    ensures run[l].procs[p].starts[n] == run[i + 1].procs[p].starts[n]
    ensures LogOf(run[i + 1].logs, n) <= LogOf(run[l].logs, n)
    decreases l
  {
    if i + 1 < l {
      StartStays(run, i, l - 1, p, n);
      assert Step(run[l - 1], run[l - 1 + 1]);
      StartStaysOnce(run[l - 1], run[l], p, n);
    }
  }

  /** The log is the same right after a process has joined. */
  lemma JoinKeepsLog(run: seq<State>, i: nat, p: nat, info: map<string, nat>, n: string)
    requires Joins(run, i, p, info, n)
    ensures LogOf(run[i + 1].logs, n) == LogOf(run[i].logs, n)
  {
  }

  lemma {:induction false} OnStreamIn(injs: seq<Injection>, n: string, x: Injection)
    ensures x in OnStream(injs, n) ==> x in injs
  {
    if injs != [] {
      OnStreamIn(injs[..|injs| - 1], n, x);
      assert injs == injs[..|injs| - 1] + [injs[|injs| - 1]];
    }
  }

  /** As long as a process does not restart: what it injects from a stream starts behind every entry that was
      there when it joined exactly if XINFO succeeded or there was none. Otherwise it starts at the beginning,
      and every old entry of another process up to the cursor has been injected. */
  lemma BacklogSkippedIff(run: seq<State>, i: nat, l: nat, p: nat, info: map<string, nat>, n: string, e: nat)
    requires Run(run) && Joins(run, i, p, info, n) && i + 1 <= l && Keeps(run, i, l, p, n)
    requires e < |LogOf(run[i].logs, n)|
    ensures var q := run[l].procs[p];
            && (q.starts[n] >= |LogOf(run[i].logs, n)| <==> n in info)
            && (n !in info ==> q.starts[n] == 0)
    ensures var q, x := run[l].procs[p], LogOf(run[i].logs, n)[e];
            n !in info && Foreign(q.id, x) && WellFormed(x) && n in q.cursors && q.cursors[n].At? && e < q.cursors[n].passed
            ==> Handle(q.id, n, x).Some? && Handle(q.id, n, x).value in q.injected
  {
    StartSet(run, i, p, info, n);
    StartStays(run, i, l, p, n);
    JoinKeepsLog(run, i, p, info, n);
    var q, x := run[l].procs[p], LogOf(run[i].logs, n)[e];
    if n !in info && n in q.cursors && q.cursors[n].At? && e < q.cursors[n].passed {
      CrossProcessDelivery(run, l, p, n);
      var log := LogOf(run[l].logs, n);
      assert log[e] == x && log[0..q.cursors[n].passed][e] == x;
      EachWantedOnce(q.id, n, log[0..q.cursors[n].passed], e);
      if Foreign(q.id, x) && WellFormed(x) { OnStreamIn(q.injected, n, Handle(q.id, n, x).value); }
    }
  }

  /** A process before it joins stream `n`, and after it has joined at the beginning. */
  function Waiting(id: string, n: string): Proc {
    Proc(id, map[n := Dollar], map[], [])
  }

  function AtBeginning(id: string, n: string): Proc {
    Proc(id, map[n := At(0)], map[n := 0], [])
  }

  function Alone(n: string, x: Entry, q: Proc): State {
    State(map[n := [x]], [q])
  }

  lemma AppendsFirst(n: string, x: Entry, q: Proc)
    ensures Step(State(map[], [q]), Alone(n, x, q))
  {
    var none: map<string, seq<Entry>> := map[];
    assert LogOf(none, n) + [x] == [x];
    assert Next(State(none, [q]), Append(n, x), Alone(n, x, q));
  }

  lemma JoinsAtBeginning(id: string, n: string, x: Entry)
    ensures Next(Alone(n, x, Waiting(id, n)), Resolving(0, map[]), Alone(n, x, AtBeginning(id, n)))
  {
    var q0, q1 := Waiting(id, n), AtBeginning(id, n);
    assert Resolved(q0.cursors, map[], q1.cursors) && StartsAfter(q0, q1.cursors) == q1.starts;
  }

  lemma ReadsFirst(id: string, n: string, x: Entry) returns (q: Proc)
    requires Foreign(id, x) && WellFormed(x)
    ensures Step(Alone(n, x, AtBeginning(id, n)), Alone(n, x, q))
    ensures Handle(id, n, x).Some? && q.injected == [Handle(id, n, x).value]
  {
    var q1 := AtBeginning(id, n);
    var b := Batch(n, [(1, x)]);
    q := q1.(cursors := Advanced(q1.cursors, [b]), injected := q1.injected + InjectedBy(id, [b]));
    assert BatchOk(map[n := [x]], q1.cursors, b);
    assert Next(Alone(n, x, q1), Reading(0, [b]), Alone(n, x, q));
    OneInjected(id, b, x);
  }

  /** A run in which a process that joins later injects an old event: XINFO fails, the read starts at the
      beginning. */
  lemma OldEntryReplayed(id: string, n: string, x: Entry) returns (run: seq<State>)
    requires Foreign(id, x) && WellFormed(x)
    ensures Run(run) && |run| == 4 && LogOf(run[1].logs, n) == [x] && Joins(run, 1, 0, map[], n)
    ensures |run[3].procs| == 1 && Handle(id, n, x).Some? && run[3].procs[0].injected == [Handle(id, n, x).value]
  {
    var q0, q1 := Waiting(id, n), AtBeginning(id, n);
    AppendsFirst(n, x, q0);
    JoinsAtBeginning(id, n, x);
    var q2 := ReadsFirst(id, n, x);
    run := [State(map[], [q0]), Alone(n, x, q0), Alone(n, x, q1), Alone(n, x, q2)];
    assert Step(run[1], run[2]);
  }

  lemma OneInjected(id: string, b: Batch, x: Entry)
    requires |b.entries| == 1 && b.entries[0].1 == x && Foreign(id, x) && WellFormed(x)
    ensures Handle(id, b.stream, x).Some? && InjectedBy(id, [b]) == [Handle(id, b.stream, x).value]
  {
    assert Entries(b) == [x] && [x][..0] == [] && [b][..0] == [];
    assert Handled(id, b.stream, [x]) == [Handle(id, b.stream, x).value];
  }
}
