/** What arrives: from a publish in one process to the injected event in another, and back. */
module StreamArrival {
  import opened Prelude
  import opened StreamConsumer
  import opened StreamDelivery
  import opened StreamBacklog

  /** An entry is injected exactly if it is another process's and well-formed, under its own event name and with
      its own payload; a missing payload counts as an empty object. */
  lemma InjectedContent(id: string, s: string, e: Entry)
    ensures Handle(id, s, e).Some? <==> Foreign(id, e) && WellFormed(e)
    ensures Handle(id, s, e).Some? ==>
      && Handle(id, s, e).value.stream == s && Some(Handle(id, s, e).value.event) == e.event
      && (e.payload == JsonObject(Handle(id, s, e).value.body) || (e.payload.Missing? && Handle(id, s, e).value.body == "{}"))
  {
  }

  lemma StepKeepsLogs(s: State, s': State, n: string)
    requires Step(s, s')
    ensures LogOf(s.logs, n) <= LogOf(s'.logs, n)
  {
    var a :| Next(s, a, s');
    match a
    case Publish(_, _, _, _) =>
    case Append(_, _) =>
    case Resolving(_, _) =>
    case Reading(_, _) =>
    case Restart(_) =>
  }

  lemma {:induction false} LogsGrow(run: seq<State>, i: nat, l: nat, n: string)
    requires Run(run) && i <= l < |run|
    ensures LogOf(run[i].logs, n) <= LogOf(run[l].logs, n)
    decreases l
  {
    if i < l {
      LogsGrow(run, i, l - 1, n);
      assert Step(run[l - 1], run[l - 1 + 1]);
      StepKeepsLogs(run[l - 1], run[l], n);
    }
  }

  /** Entry `e` of the stream, once between the start and the cursor of a process, has been injected there. */
  lemma PassedIsInjected(run: seq<State>, l: nat, q: nat, n: string, e: nat)
    requires Run(run) && l < |run| && q < |run[l].procs| && e < |LogOf(run[l].logs, n)|
    requires var r := run[l].procs[q];
             n in r.cursors && r.cursors[n].At? && n in r.starts && r.starts[n] <= e < r.cursors[n].passed
    requires Foreign(run[l].procs[q].id, LogOf(run[l].logs, n)[e]) && WellFormed(LogOf(run[l].logs, n)[e])
    ensures var h := Handle(run[l].procs[q].id, n, LogOf(run[l].logs, n)[e]);
            h.Some? && h.value in run[l].procs[q].injected
  {
    var r, log := run[l].procs[q], LogOf(run[l].logs, n);
    CrossProcessDelivery(run, l, q, n);
    var slice := log[r.starts[n]..r.cursors[n].passed];
    assert slice[e - r.starts[n]] == log[e];
    EachWantedOnce(r.id, n, slice, e - r.starts[n]);
    OnStreamIn(r.injected, n, Handle(r.id, n, log[e]).value);
  }

  /** From end to end: what a process publishes, every other process whose start lies at or before it and whose
      cursor has passed it has injected, event and body unchanged. */
  lemma PublishedArrives(run: seq<State>, m: nat, p: nat, n: string, event: string, body: string, l: nat, q: nat)
    requires Run(run) && m + 1 < |run| && Next(run[m], Publish(p, n, event, body), run[m + 1]) && event != ""
    requires m < l < |run| && q < |run[l].procs| && run[l].procs[q].id != run[m].procs[p].id
    requires var r, e := run[l].procs[q], |LogOf(run[m].logs, n)|;
             n in r.cursors && r.cursors[n].At? && n in r.starts && r.starts[n] <= e < r.cursors[n].passed
    ensures Injection(n, event, body) in run[l].procs[q].injected
  {
    var e, x := |LogOf(run[m].logs, n)|, Entry(Some(run[m].procs[p].id), Some(event), JsonObject(body));
    assert LogOf(run[m + 1].logs, n)[e] == x;
    LogsGrow(run, m + 1, l, n);
    assert LogOf(run[l].logs, n)[e] == x;
    InjectedContent(run[l].procs[q].id, n, x);
    PassedIsInjected(run, l, q, n, e);
  }

  lemma {:induction false} HandledFrom(id: string, n: string, es: seq<Entry>, x: Injection)
    requires x in Handled(id, n, es)
    ensures exists i :: 0 <= i < |es| && Handle(id, n, es[i]) == Some(x)
  {
    var k := |es| - 1;
    if x in Handled(id, n, es[..k]) {
      HandledFrom(id, n, es[..k], x);
      var i :| 0 <= i < k && Handle(id, n, es[..k][i]) == Some(x);
      assert Handle(id, n, es[i]) == Some(x);
    } else {
      assert Handle(id, n, es[k]) == Some(x);
    }
  }

  /** Nothing is made up: an injected event is a foreign, well-formed entry between start and cursor. */
  lemma NothingMadeUp(run: seq<State>, l: nat, q: nat, n: string, x: Injection)
    requires Run(run) && l < |run| && q < |run[l].procs| && n in run[l].procs[q].cursors
    requires x in OnStream(run[l].procs[q].injected, n)
    ensures var r, log := run[l].procs[q], LogOf(run[l].logs, n);
            n in r.starts && r.cursors[n].At? &&
            exists e :: r.starts[n] <= e < r.cursors[n].passed && e < |log| && Foreign(r.id, log[e]) && WellFormed(log[e])
                        && log[e].event == Some(x.event) && x.stream == n
                        && (log[e].payload == JsonObject(x.body) || (log[e].payload.Missing? && x.body == "{}"))
  {
    var r, log := run[l].procs[q], LogOf(run[l].logs, n);
    CrossProcessDelivery(run, l, q, n);
    var a := r.starts[n];
    var slice := log[a..r.cursors[n].passed];
    HandledFrom(r.id, n, slice, x);
    var i :| 0 <= i < |slice| && Handle(r.id, n, slice[i]) == Some(x);
    InjectedContent(r.id, n, slice[i]);
    assert log[a + i] == slice[i];
  }
}
