/** The Redis stream consumer of one process. A stream is an append-only log; an entry's id is its place in
    it, so a cursor says how many entries have been passed. */
module StreamConsumer {
  import opened Prelude

  datatype Payload = Missing | JsonObject(body: string) | JsonOther | NotJson

  /** The fields of a stream entry; a field may be absent or empty. */
  datatype Entry = Entry(publisher: Option<string>, event: Option<string>, payload: Payload)

  /** "$" (only what comes after the next read), or the last id that was read. */
  datatype Cursor = Dollar | At(passed: nat)

  datatype Injection = Injection(stream: string, event: string, body: string)

  /** One stream's part of an XREAD reply: entries with their ids. */
  datatype Batch = Batch(stream: string, entries: seq<(nat, Entry)>)

  /** What `_handle_entry` injects: nothing of this process's own, nothing without an event name, nothing
      whose payload is not a JSON object. */
  function Handle(publisherId: string, stream: string, e: Entry): Option<Injection> {
    if e.publisher.Some? && e.publisher.value != "" && e.publisher.value == publisherId then None
    else if e.event.None? || e.event.value == "" then None
    else match e.payload
      case Missing => Some(Injection(stream, e.event.value, "{}"))
      case JsonObject(body) => Some(Injection(stream, e.event.value, body))
      case JsonOther => None
      case NotJson => None
  }

  function Handled(publisherId: string, stream: string, es: seq<Entry>): seq<Injection> {
    if es == [] then [] else
      Handled(publisherId, stream, es[..|es| - 1])
      + match Handle(publisherId, stream, es[|es| - 1]) case None => [] case Some(inj) => [inj]
  }

  function Resolve(c: Cursor, info: Option<nat>): Cursor {
    if c.Dollar? then At(info.GetOr(0)) else c
  }

  /** The cursors after resolving every "$": the stream's last id, or the beginning when XINFO fails. */
  ghost predicate Resolved(before: map<string, Cursor>, info: map<string, nat>, after: map<string, Cursor>) {
    && after.Keys == before.Keys
    && forall s :: s in before ==> after[s] == Resolve(before[s], if s in info then Some(info[s]) else None)
  }

  ghost predicate ResolvedSoFar(before: map<string, Cursor>, info: map<string, nat>, names: seq<string>,
                                after: map<string, Cursor>) {
    && after.Keys == before.Keys
    && (forall s :: s in before && s !in names ==> after[s] == before[s])
    && forall s :: s in before && s in names ==>
         after[s] == Resolve(before[s], if s in info then Some(info[s]) else None)
  }

  function Entries(b: Batch): seq<Entry> {
    seq(|b.entries|, i requires 0 <= i < |b.entries| => b.entries[i].1)
  }

  function LastId(b: Batch): nat
    requires b.entries != []
  {
    b.entries[|b.entries| - 1].0
  }

  /** Cursors after a reply: each stream that had entries stands at its last one. */
  function Advanced(ids: map<string, Cursor>, reply: seq<Batch>): map<string, Cursor> {
    if reply == [] then ids else
      var b := reply[|reply| - 1];
      var before := Advanced(ids, reply[..|reply| - 1]);
      if b.entries == [] then before else before[b.stream := At(LastId(b))]
  }

  function InjectedBy(publisherId: string, reply: seq<Batch>): seq<Injection> {
    if reply == [] then [] else
      InjectedBy(publisherId, reply[..|reply| - 1])
      + Handled(publisherId, reply[|reply| - 1].stream, Entries(reply[|reply| - 1]))
  }

  lemma BatchTaken(ids: map<string, Cursor>, publisherId: string, rows: seq<Batch>, k: nat)
    requires k < |rows|
    ensures var before := Advanced(ids, rows[..k]);
            Advanced(ids, rows[..k + 1]) ==
            if rows[k].entries == [] then before else before[rows[k].stream := At(LastId(rows[k]))]
    ensures InjectedBy(publisherId, rows[..k + 1])
         == InjectedBy(publisherId, rows[..k]) + Handled(publisherId, rows[k].stream, Entries(rows[k]))
  {
    assert rows[..k + 1][..k] == rows[..k];
  }

  class RedisStreamConsumer {
    const publisherId: string
    const streams: seq<string>
    var lastIds: map<string, Cursor>
    var injected: seq<Injection>  // the calls made to the inject callback

    constructor (publisherId: string, streams: seq<string>)
      ensures this.publisherId == publisherId && this.streams == streams && injected == []
      ensures lastIds == map s | s in streams :: Dollar
    {
      this.publisherId := publisherId;
      this.streams := streams;
      lastIds := map s | s in streams :: Dollar;
      injected := [];
    }

    ghost predicate Valid()
      reads this
    {
      lastIds.Keys == set s | s in streams
    }

    /** `info` holds the last id of each stream for which XINFO succeeds. */
    method ResolveInitialIds(info: map<string, nat>)
      requires Valid()
      modifies this`lastIds
      ensures Valid() && Resolved(old(lastIds), info, lastIds)
    {
      var k := 0;
      while k < |streams|
        invariant 0 <= k <= |streams| && Valid()
        invariant ResolvedSoFar(old(lastIds), info, streams[..k], lastIds)
      {
        var name := streams[k];
        assert streams[..k + 1] == streams[..k] + [name];
        if lastIds[name] == Dollar {
          var lastId := if name in info then info[name] else 0;
          lastIds := lastIds[name := At(lastId)];
        }
        k := k + 1;
      }
      assert streams[..k] == streams;
    }

    /** Takes in one reply, entry by entry. `reply` is None when XREAD raises. */
    method ReadReply(reply: Option<seq<Batch>>) returns (consumed: nat)
      requires Valid() && (reply.Some? ==> forall i :: 0 <= i < |reply.value| ==> reply.value[i].stream in streams)
      modifies this
      ensures Valid()
      ensures lastIds == Advanced(old(lastIds), reply.GetOr([]))
      ensures injected == old(injected) + InjectedBy(publisherId, reply.GetOr([]))
      ensures consumed == |InjectedBy(publisherId, reply.GetOr([]))|
    {
      consumed := 0;
      if reply.None? {
        return;
      }
      var rows := reply.value;
      var k := 0;
      while k < |rows|
        invariant 0 <= k <= |rows| && Valid()
        invariant lastIds == Advanced(old(lastIds), rows[..k])
        invariant injected == old(injected) + InjectedBy(publisherId, rows[..k])
        invariant consumed == |InjectedBy(publisherId, rows[..k])|
      {
        BatchTaken(old(lastIds), publisherId, rows, k);
        var n := TakeBatch(rows[k]);
        consumed := consumed + n;
        k := k + 1;
      }
      assert rows[..k] == rows;
    }

    method TakeBatch(b: Batch) returns (consumed: nat)
      requires Valid() && b.stream in streams
      modifies this
      ensures Valid()
      ensures lastIds == if b.entries == [] then old(lastIds) else old(lastIds)[b.stream := At(LastId(b))]
      ensures injected == old(injected) + Handled(publisherId, b.stream, Entries(b))
      ensures consumed == |Handled(publisherId, b.stream, Entries(b))|
    {
      consumed := 0;
      var es := Entries(b);
      var i := 0;
      while i < |b.entries|
        invariant 0 <= i <= |b.entries| && Valid()
        invariant lastIds == if i == 0 then old(lastIds) else old(lastIds)[b.stream := At(b.entries[i - 1].0)]
        invariant injected == old(injected) + Handled(publisherId, b.stream, es[..i])
        invariant consumed == |Handled(publisherId, b.stream, es[..i])|
      {
        assert es[..i + 1][..i] == es[..i];
        lastIds := lastIds[b.stream := At(b.entries[i].0)];
        var inj := Handle(publisherId, b.stream, b.entries[i].1);
        if inj.Some? {
          injected := injected + [inj.value];
          consumed := consumed + 1;
        }
        i := i + 1;
      }
      assert es[..i] == es;
    }

    /** `poll_once`: resolve, read, take in. */
    method PollOnce(info: map<string, nat>, reply: Option<seq<Batch>>) returns (consumed: nat)
      requires Valid() && (reply.Some? ==> forall i :: 0 <= i < |reply.value| ==> reply.value[i].stream in streams)
      modifies this
      ensures Valid()
      ensures streams != [] ==> exists ids: map<string, Cursor> ::
                Resolved(old(lastIds), info, ids) && lastIds == Advanced(ids, reply.GetOr([]))
      ensures streams != [] ==> injected == old(injected) + InjectedBy(publisherId, reply.GetOr([]))
      ensures |injected| == |old(injected)| + consumed
      ensures streams == [] ==> lastIds == old(lastIds) && injected == old(injected)
    {
      consumed := 0;
      if streams == [] {
        return;
      }
      ResolveInitialIds(info);
      ghost var ids := lastIds;
      consumed := ReadReply(reply);
      assert Resolved(old(lastIds), info, ids);
    }
  }
}
