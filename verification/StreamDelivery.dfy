/** Cross-process delivery: any number of processes append to shared streams that are never trimmed, and
    each polls them with its own cursors. */
module StreamDelivery {
  import opened Prelude
  import opened StreamConsumer

  /** `starts` records where each stream's cursor was first resolved; `injected` what the process has
      injected since its consumer thread started. */
  datatype Proc = Proc(id: string, cursors: map<string, Cursor>, starts: map<string, nat>, injected: seq<Injection>)

  datatype State = State(logs: map<string, seq<Entry>>, procs: seq<Proc>)

  datatype Action =
    | Publish(p: nat, stream: string, event: string, body: string)
    | Append(stream: string, entry: Entry)  // any other producer, well-formed or not
    | Resolving(p: nat, info: map<string, nat>)
    | Reading(p: nat, reply: seq<Batch>)
    | Restart(p: nat)

  function LogOf(logs: map<string, seq<Entry>>, s: string): seq<Entry> {
    if s in logs then logs[s] else []
  }

  function Appended(logs: map<string, seq<Entry>>, s: string, e: Entry): map<string, seq<Entry>> {
    logs[s := LogOf(logs, s) + [e]]
  }

  /** What XREAD promises: for some of the streams, the entries that directly follow the cursor. */
  ghost predicate ReplyOk(logs: map<string, seq<Entry>>, cursors: map<string, Cursor>, reply: seq<Batch>) {
    && (forall i, j :: 0 <= i < j < |reply| ==> reply[i].stream != reply[j].stream)
    && forall i :: 0 <= i < |reply| ==> BatchOk(logs, cursors, reply[i])
  }

  ghost predicate BatchOk(logs: map<string, seq<Entry>>, cursors: map<string, Cursor>, b: Batch) {
    && b.stream in cursors && cursors[b.stream].At?
    && var c := cursors[b.stream].passed;
       var log := LogOf(logs, b.stream);
       && b.entries != [] && c + |b.entries| <= |log|
       && forall i :: 0 <= i < |b.entries| ==> b.entries[i] == (c + i + 1, log[c + i])
  }

  ghost predicate Next(s: State, a: Action, s': State) {
    match a
    case Publish(p, stream, event, body) =>
      p < |s.procs|
      && s' == s.(logs := Appended(s.logs, stream, Entry(Some(s.procs[p].id), Some(event), JsonObject(body))))
    case Append(stream, entry) => s' == s.(logs := Appended(s.logs, stream, entry))
    case Resolving(p, info) =>
      && p < |s.procs| && (forall n :: n in info ==> info[n] == |LogOf(s.logs, n)|)
      && |s'.procs| == |s.procs|
      && var q, q' := s.procs[p], s'.procs[p];
         && Resolved(q.cursors, info, q'.cursors)
         && q' == q.(cursors := q'.cursors, starts := StartsAfter(q, q'.cursors))
         && s' == s.(procs := s.procs[p := q'])
    case Reading(p, reply) =>
      && p < |s.procs| && ReplyOk(s.logs, s.procs[p].cursors, reply)
      && var q := s.procs[p];
         s' == s.(procs := s.procs[p := q.(cursors := Advanced(q.cursors, reply),
                                           injected := q.injected + InjectedBy(q.id, reply))])
    case Restart(p) =>
      && p < |s.procs|
      && var q := s.procs[p];
         s' == s.(procs := s.procs[p := Proc(q.id, map n | n in q.cursors :: Dollar, map[], [])])
  }

  ghost function StartsAfter(q: Proc, cursors: map<string, Cursor>): map<string, nat> {
    map n | n in cursors && (n in q.starts || (n in q.cursors && q.cursors[n].Dollar? && cursors[n].At?)) ::
      if n in q.starts then q.starts[n] else cursors[n].passed
  }

  ghost predicate Step(s: State, s': State) {
    exists a :: Next(s, a, s')
  }

  ghost predicate Init(s: State) {
    forall p :: 0 <= p < |s.procs| ==>
      s.procs[p].starts == map[] && s.procs[p].injected == []
      && forall n :: n in s.procs[p].cursors ==> s.procs[p].cursors[n] == Dollar
  }

  ghost predicate Run(run: seq<State>) {
    run != [] && Init(run[0]) && forall i :: 0 <= i < |run| - 1 ==> Step(run[i], run[i + 1])
  }

  function OnStream(injs: seq<Injection>, s: string): seq<Injection> {
    if injs == [] then [] else
      OnStream(injs[..|injs| - 1], s) + if injs[|injs| - 1].stream == s then [injs[|injs| - 1]] else []
  }

  /** Of stream `n`, the process has injected exactly what lies between its start and its cursor. */
  ghost predicate Delivered(logs: map<string, seq<Entry>>, q: Proc, n: string)
    requires n in q.cursors
  {
    match q.cursors[n]
    case Dollar => n !in q.starts && OnStream(q.injected, n) == []
    case At(c) =>
      && n in q.starts && q.starts[n] <= c <= |LogOf(logs, n)|
      && OnStream(q.injected, n) == Handled(q.id, n, LogOf(logs, n)[q.starts[n]..c])
  }

  ghost predicate ProcOk(logs: map<string, seq<Entry>>, q: Proc) {
    && (forall n :: n in q.starts ==> n in q.cursors)
    && forall n :: n in q.cursors ==> Delivered(logs, q, n)
  }

  ghost predicate Inv(s: State) {
    forall p :: 0 <= p < |s.procs| ==> ProcOk(s.logs, s.procs[p])
  }

  lemma {:induction false} OnStreamConcat(a: seq<Injection>, b: seq<Injection>, s: string)
    ensures OnStream(a + b, s) == OnStream(a, s) + OnStream(b, s)
  {
    if b == [] {
      assert a + b == a;
    } else {
      var n := |b| - 1;
      assert (a + b)[..|a + b| - 1] == a + b[..n];
      OnStreamConcat(a, b[..n], s);
    }
  }

  lemma {:induction false} HandledConcat(id: string, s: string, a: seq<Entry>, b: seq<Entry>)
    ensures Handled(id, s, a + b) == Handled(id, s, a) + Handled(id, s, b)
  {
    if b == [] {
      assert a + b == a;
    } else {
      var n := |b| - 1;
      assert (a + b)[..|a + b| - 1] == a + b[..n];
      HandledConcat(id, s, a, b[..n]);
    }
  }

  lemma {:induction false} HandledOnStream(id: string, s: string, es: seq<Entry>, n: string)
    ensures OnStream(Handled(id, s, es), n) == if n == s then Handled(id, s, es) else []
  {
    if es != [] {
      var k := |es| - 1;
      HandledOnStream(id, s, es[..k], n);
      var last := match Handle(id, s, es[k]) case None => [] case Some(inj) => [inj];
      OnStreamConcat(Handled(id, s, es[..k]), last, n);
      assert last != [] ==> last[..0] == [];
    }
  }

  /** A stream that a reply leaves out keeps its cursor and injects nothing. */
  lemma {:induction false} NotInReply(id: string, cursors: map<string, Cursor>, reply: seq<Batch>, n: string)
    requires forall i :: 0 <= i < |reply| ==> reply[i].stream != n
    ensures n in Advanced(cursors, reply) <==> n in cursors
    ensures n in cursors ==> Advanced(cursors, reply)[n] == cursors[n]
    ensures OnStream(InjectedBy(id, reply), n) == []
  {
    if reply != [] {
      var k := |reply| - 1;
      var b := reply[k];
      NotInReply(id, cursors, reply[..k], n);
      OnStreamConcat(InjectedBy(id, reply[..k]), Handled(id, b.stream, Entries(b)), n);
      HandledOnStream(id, b.stream, Entries(b), n);
    }
  }

  ghost predicate DistinctStreams(reply: seq<Batch>) {
    forall i, k :: 0 <= i < k < |reply| ==> reply[i].stream != reply[k].stream
  }

  lemma {:induction false} ReplyAdvances(cursors: map<string, Cursor>, reply: seq<Batch>, j: nat)
    requires DistinctStreams(reply) && j < |reply| && reply[j].entries != []
    ensures reply[j].stream in Advanced(cursors, reply)
    ensures Advanced(cursors, reply)[reply[j].stream] == At(LastId(reply[j]))
  {
    var k := |reply| - 1;
    if j < k {
      assert reply[..k][j] == reply[j];
      ReplyAdvances(cursors, reply[..k], j);
      assert reply[j].stream != reply[k].stream;
    }
  }

  /** What a reply injects on a stream, batch by batch. */
  lemma BatchInjects(id: string, reply: seq<Batch>, n: string)
    requires reply != []
    ensures var b := reply[|reply| - 1];
            OnStream(InjectedBy(id, reply), n) == OnStream(InjectedBy(id, reply[..|reply| - 1]), n)
              + if n == b.stream then Handled(id, n, Entries(b)) else []
  {
    var k := |reply| - 1;
    OnStreamConcat(InjectedBy(id, reply[..k]), Handled(id, reply[k].stream, Entries(reply[k])), n);
    HandledOnStream(id, reply[k].stream, Entries(reply[k]), n);
  }

  lemma LastInjects(id: string, cursors: map<string, Cursor>, reply: seq<Batch>)
    requires DistinctStreams(reply) && reply != []
    ensures var b := reply[|reply| - 1]; OnStream(InjectedBy(id, reply), b.stream) == Handled(id, b.stream, Entries(b))
  {
    var k := |reply| - 1;
    BatchInjects(id, reply, reply[k].stream);
    NotInReply(id, cursors, reply[..k], reply[k].stream);
  }

  lemma {:induction false} ReplyInjects(id: string, cursors: map<string, Cursor>, reply: seq<Batch>, j: nat)
    requires DistinctStreams(reply) && j < |reply|
    ensures OnStream(InjectedBy(id, reply), reply[j].stream) == Handled(id, reply[j].stream, Entries(reply[j]))
  {
    var k := |reply| - 1;
    if j == k {
      LastInjects(id, cursors, reply);
    } else {
      assert reply[..k][j] == reply[j];
      ReplyInjects(id, cursors, reply[..k], j);
      BatchInjects(id, reply, reply[j].stream);
    }
  }

  /** A batch is the stretch of the log behind the cursor. */
  lemma BatchIsSlice(logs: map<string, seq<Entry>>, cursors: map<string, Cursor>, b: Batch)
    requires BatchOk(logs, cursors, b)
    ensures cursors[b.stream].passed < LastId(b) <= |LogOf(logs, b.stream)|
    ensures Entries(b) == LogOf(logs, b.stream)[cursors[b.stream].passed..LastId(b)]
  {
    var c := cursors[b.stream].passed;
    assert b.entries[|b.entries| - 1] == (c + |b.entries|, LogOf(logs, b.stream)[c + |b.entries| - 1]);
  }

  lemma AppendKeeps(logs: map<string, seq<Entry>>, stream: string, e: Entry, q: Proc)
    requires ProcOk(logs, q)
    ensures ProcOk(Appended(logs, stream, e), q)
  {
    forall n | n in q.cursors ensures Delivered(Appended(logs, stream, e), q, n) {
      assert Delivered(logs, q, n);
      if q.cursors[n].At? {
        var a, c := q.starts[n], q.cursors[n].passed;
        assert LogOf(Appended(logs, stream, e), n)[a..c] == LogOf(logs, n)[a..c];
      }
    }
  }

  lemma ResolvingKeeps(logs: map<string, seq<Entry>>, q: Proc, info: map<string, nat>, q': Proc)
    requires ProcOk(logs, q) && forall n :: n in info ==> info[n] == |LogOf(logs, n)|
    requires Resolved(q.cursors, info, q'.cursors)
    requires q' == q.(cursors := q'.cursors, starts := StartsAfter(q, q'.cursors))
    ensures ProcOk(logs, q')
  {
    forall n | n in q'.cursors ensures Delivered(logs, q', n) {
      assert Delivered(logs, q, n);
      var c := q'.cursors[n].passed;
      if q.cursors[n].Dollar? { assert LogOf(logs, n)[c..c] == []; }
    }
  }

  lemma ReadingKeeps(logs: map<string, seq<Entry>>, q: Proc, reply: seq<Batch>)
    requires ProcOk(logs, q) && ReplyOk(logs, q.cursors, reply)
    ensures ProcOk(logs, q.(cursors := Advanced(q.cursors, reply), injected := q.injected + InjectedBy(q.id, reply)))
  {
    var q' := q.(cursors := Advanced(q.cursors, reply), injected := q.injected + InjectedBy(q.id, reply));
    forall n ensures n in q'.cursors <==> n in q.cursors
      ensures n in q.cursors ==> Delivered(logs, q', n)
    {
      OnStreamConcat(q.injected, InjectedBy(q.id, reply), n);
      if n in q.cursors { assert Delivered(logs, q, n); }
      if j :| 0 <= j < |reply| && reply[j].stream == n {
        assert BatchOk(logs, q.cursors, reply[j]);
        BatchIsSlice(logs, q.cursors, reply[j]);
        ReplyAdvances(q.cursors, reply, j);
        ReplyInjects(q.id, q.cursors, reply, j);
        SlicesJoin(q.id, n, LogOf(logs, n), q.starts[n], q.cursors[n].passed, LastId(reply[j]));
      } else {
        NotInReply(q.id, q.cursors, reply, n);
      }
    }
  }

  lemma SlicesJoin(id: string, n: string, log: seq<Entry>, a: nat, c: nat, d: nat)
    requires a <= c <= d <= |log|
    ensures Handled(id, n, log[a..d]) == Handled(id, n, log[a..c]) + Handled(id, n, log[c..d])
  {
    assert log[a..d] == log[a..c] + log[c..d];
    HandledConcat(id, n, log[a..c], log[c..d]);
  }

  lemma AppendStepKeeps(s: State, stream: string, e: Entry)
    requires Inv(s)
    ensures Inv(s.(logs := Appended(s.logs, stream, e)))
  {
    forall p | 0 <= p < |s.procs| ensures ProcOk(Appended(s.logs, stream, e), s.procs[p]) {
      AppendKeeps(s.logs, stream, e, s.procs[p]);
    }
  }

  lemma ProcStepKeeps(s: State, p: nat, q: Proc)
    requires Inv(s) && p < |s.procs| && ProcOk(s.logs, q)
    ensures Inv(s.(procs := s.procs[p := q]))
  {
    var procs := s.procs[p := q];
    forall i | 0 <= i < |procs| ensures ProcOk(s.logs, procs[i]) {
      assert i != p ==> procs[i] == s.procs[i];
    }
  }

  lemma StepKeepsInv(s: State, a: Action, s': State)
    requires Inv(s) && Next(s, a, s')
    ensures Inv(s')
  {
    match a
    case Publish(p, stream, event, body) =>
      AppendStepKeeps(s, stream, Entry(Some(s.procs[p].id), Some(event), JsonObject(body)));
    case Append(stream, entry) => AppendStepKeeps(s, stream, entry);
    case Resolving(p, info) =>
      ResolvingKeeps(s.logs, s.procs[p], info, s'.procs[p]);
      ProcStepKeeps(s, p, s'.procs[p]);
    case Reading(p, reply) =>
      ReadingKeeps(s.logs, s.procs[p], reply);
      ProcStepKeeps(s, p, s'.procs[p]);
    case Restart(p) =>
      RestartOk(s.logs, s.procs[p]);
      ProcStepKeeps(s, p, s'.procs[p]);
  }

  lemma RestartOk(logs: map<string, seq<Entry>>, q: Proc)
    ensures ProcOk(logs, Proc(q.id, map n | n in q.cursors :: Dollar, map[], []))
  {
  }

  lemma {:induction false} RunKeepsInv(run: seq<State>, i: nat)
    requires Run(run) && i < |run|
    ensures Inv(run[i])
  {
    if i == 0 {
      forall p | 0 <= p < |run[0].procs| ensures ProcOk(run[0].logs, run[0].procs[p]) {
      }
    } else {
      RunKeepsInv(run, i - 1);
      assert Step(run[i - 1], run[i - 1 + 1]);
      var a :| Next(run[i - 1], a, run[i]);
      StepKeepsInv(run[i - 1], a, run[i]);
    }
  }

  /** In every run, for every process and stream: what has been injected from the stream is, in order and
      without repeats or gaps, what the stream holds from the resolved start to the cursor, less this
      process's own entries and malformed ones. */
  lemma CrossProcessDelivery(run: seq<State>, i: nat, p: nat, n: string)
    requires Run(run) && i < |run| && p < |run[i].procs| && n in run[i].procs[p].cursors
    ensures Delivered(run[i].logs, run[i].procs[p], n)
  {
    RunKeepsInv(run, i);
    assert ProcOk(run[i].logs, run[i].procs[p]);
  }

  predicate Foreign(id: string, e: Entry) {
    e.publisher.None? || e.publisher.value == "" || e.publisher.value != id
  }

  predicate WellFormed(e: Entry) {
    e.event.Some? && e.event.value != "" && (e.payload.Missing? || e.payload.JsonObject?)
  }

  /** How many of the first `k` entries are foreign and well-formed. */
  function Wanted(id: string, es: seq<Entry>, k: nat): nat
    requires k <= |es|
  {
    if k == 0 then 0 else Wanted(id, es, k - 1) + if Foreign(id, es[k - 1]) && WellFormed(es[k - 1]) then 1 else 0
  }

  /** Between two cursors every foreign well-formed entry is injected once, at the place its rank gives it,
      and nothing else is: no echo of own entries, nothing malformed. */
  lemma {:induction false} EachWantedOnce(id: string, s: string, es: seq<Entry>, i: nat)
    requires i < |es|
    ensures |Handled(id, s, es)| == Wanted(id, es, |es|)
    ensures if Foreign(id, es[i]) && WellFormed(es[i])
      then Wanted(id, es, i) < |Handled(id, s, es)|
           && Handle(id, s, es[i]) == Some(Handled(id, s, es)[Wanted(id, es, i)])
      else Handle(id, s, es[i]) == None
  {
    var n := |es| - 1;
    WantedPrefix(id, es, n, n);
    WantedPrefix(id, es, n, i);
    if i < n {
      EachWantedOnce(id, s, es[..n], i);
      assert es[..n][i] == es[i];
    } else if n > 0 {
      EachWantedOnce(id, s, es[..n], n - 1);
    }
  }

  lemma {:induction false} WantedPrefix(id: string, es: seq<Entry>, n: nat, k: nat)
    requires k <= n <= |es|
    ensures Wanted(id, es, k) == Wanted(id, es[..n], k)
  {
    if k > 0 {
      WantedPrefix(id, es, n, k - 1);
      assert es[..n][k - 1] == es[k - 1];
    }
  }
}
