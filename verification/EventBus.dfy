/** The event bus: an in-process bus that every publish reaches, and a Redis hop behind a circuit breaker. */
module EventBus {
  type Handler = nat  // a subscriber, by identity

  datatype Delivery = Delivery(handler: Handler, event: string, payload: string)

  function Deliveries(hs: seq<Handler>, event: string, payload: string): (r: seq<Delivery>)
    ensures |r| == |hs| && forall i :: 0 <= i < |hs| ==> r[i] == Delivery(hs[i], event, payload)
  {
    seq(|hs|, i requires 0 <= i < |hs| => Delivery(hs[i], event, payload))
  }

  function Raising(hs: seq<Handler>, raises: Handler -> bool): nat {
    if hs == [] then 0 else Raising(hs[..|hs| - 1], raises) + if raises(hs[|hs| - 1]) then 1 else 0
  }

  /** The raising subscribers are counted one by one. */
  lemma {:induction false} RaisingCounts(a: seq<Handler>, h: Handler, b: seq<Handler>, raises: Handler -> bool)
    ensures Raising(a + [h] + b, raises) == Raising(a + b, raises) + if raises(h) then 1 else 0
    ensures Raising([], raises) == 0
  {
    if b == [] {
      assert (a + [h])[..|a|] == a && a + [h] + b == a + [h] && a + b == a;
    } else {
      var n := |b| - 1;
      assert (a + [h] + b)[..|a| + 1 + n] == a + [h] + b[..n] && (a + b)[..|a| + n] == a + b[..n];
      RaisingCounts(a, h, b[..n], raises);
    }
  }

  function Without(hs: seq<Handler>, h: Handler): (r: seq<Handler>)
    ensures forall x :: x in r <==> x in hs && x != h
  {
    if hs == [] then [] else
      var rest := Without(hs[..|hs| - 1], h);
      assert hs == hs[..|hs| - 1] + [hs[|hs| - 1]];
      if hs[|hs| - 1] == h then rest else rest + [hs[|hs| - 1]]
  }

  class InMemoryEventBus {
    var handlers: map<string, seq<Handler>>
    var delivered: seq<Delivery>  // the handler calls made
    var errorCount: nat
    var failed: bool  // whether the last publish had a raising handler

    constructor ()
      ensures handlers == map[] && delivered == [] && errorCount == 0
    {
      handlers, delivered, errorCount, failed := map[], [], 0, false;
    }

    function Subscribers(event: string): seq<Handler>
      reads this
    {
      if event in handlers then handlers[event] else []
    }

    method Subscribe(event: string, h: Handler)
      modifies this`handlers
      ensures Subscribers(event) == old(Subscribers(event)) + [h]
      ensures forall e :: e != event ==> Subscribers(e) == old(Subscribers(e))
    {
      handlers := handlers[event := (if event in handlers then handlers[event] else []) + [h]];
    }

    method Unsubscribe(event: string, h: Handler)
      modifies this`handlers
      ensures Subscribers(event) == Without(old(Subscribers(event)), h)
      ensures forall e :: e != event ==> Subscribers(e) == old(Subscribers(e))
    {
      if event !in handlers || handlers[event] == [] {
        return;
      }
      handlers := handlers[event := Without(handlers[event], h)];
      if handlers[event] == [] {
        handlers := handlers - {event};
      }
    }

    /** Every subscriber of the moment is called once, in order, whichever of them raise. */
    method Publish(event: string, payload: string, raises: Handler -> bool)
      modifies this`delivered, this`errorCount, this`failed
      ensures delivered == old(delivered) + Deliveries(Subscribers(event), event, payload)
      ensures errorCount == old(errorCount) + Raising(Subscribers(event), raises)
      ensures failed <==> Raising(Subscribers(event), raises) > 0
    {
      failed := false;
      var snapshot := Subscribers(event);
      var i := 0;
      while i < |snapshot|
        invariant 0 <= i <= |snapshot|
        invariant delivered == old(delivered) + Deliveries(snapshot, event, payload)[..i]
        invariant errorCount == old(errorCount) + Raising(snapshot[..i], raises)
        invariant failed <==> Raising(snapshot[..i], raises) > 0
      {
        assert snapshot[..i + 1][..i] == snapshot[..i];
        delivered := delivered + [Delivery(snapshot[i], event, payload)];
        if raises(snapshot[i]) {
          errorCount, failed := errorCount + 1, true;
        }
        i := i + 1;
      }
      assert snapshot[..i] == snapshot;
    }
  }

  /** Consecutive failures and the instant until which the circuit is open. */
  datatype Breaker = Breaker(failures: nat, openUntil: int)

  datatype Settings = Settings(threshold: int, cooldown: int)

  /** One publish as the clock sees it: the breaker's check, the start, the end, and whether Redis took it. */
  datatype Call = Call(check: int, start: int, end: int, ok: bool)

  predicate Allowed(b: Breaker, c: Call) {
    c.check >= b.openUntil
  }

  function Settle(cfg: Settings, b: Breaker, c: Call): Breaker {
    if !Allowed(b, c) then b
    else if c.ok then Breaker(0, b.openUntil)
    else if b.failures + 1 >= cfg.threshold then Breaker(0, c.end + cfg.cooldown)
    else Breaker(b.failures + 1, b.openUntil)
  }

  function Elapsed(b: Breaker, c: Call): nat {
    if Allowed(b, c) && c.end > c.start then c.end - c.start else 0
  }

  datatype Message = Message(stream: string, event: string, payload: string)

  /** A batch after some of its payloads: the breaker, the time spent on Redis, and the attempts made. */
  datatype Progress = Progress(breaker: Breaker, spent: nat, attempts: nat, taken: seq<Message>)

  predicate WithinBudget(budget: int, p: Progress) {
    budget <= 0 || p.spent < budget
  }

  function BatchStep(cfg: Settings, budget: int, stream: string, event: string, p: Progress, c: Call, payload: string): Progress {
    if stream == "" || !WithinBudget(budget, p) then p
    else Progress(Settle(cfg, p.breaker, c), p.spent + Elapsed(p.breaker, c),
                  p.attempts + (if Allowed(p.breaker, c) then 1 else 0),
                  p.taken + if Allowed(p.breaker, c) && c.ok then [Message(stream, event, payload)] else [])
  }

  function BatchSteps(cfg: Settings, budget: int, stream: string, event: string, b: Breaker,
                      calls: seq<Call>, payloads: seq<string>): Progress
    requires |calls| == |payloads|
  {
    if calls == [] then Progress(b, 0, 0, []) else
      var n := |calls| - 1;
      BatchStep(cfg, budget, stream, event, BatchSteps(cfg, budget, stream, event, b, calls[..n], payloads[..n]),
                calls[n], payloads[n])
  }

  function BatchDeliveries(hs: seq<Handler>, event: string, payloads: seq<string>): seq<Delivery> {
    if payloads == [] then [] else
      BatchDeliveries(hs, event, payloads[..|payloads| - 1]) + Deliveries(hs, event, payloads[|payloads| - 1])
  }

  /** A batch after its first `k` payloads: what was delivered on top of `before`, and what Redis saw. */
  ghost predicate DeliveredTo(hs: seq<Handler>, event: string, payloads: seq<string>, k: nat,
                              before: seq<Delivery>, after: seq<Delivery>) {
    k <= |payloads| && after == before + BatchDeliveries(hs, event, payloads[..k])
  }

  ghost predicate SentTo(cfg: Settings, budget: int, stream: string, event: string, b: Breaker, calls: seq<Call>,
                         payloads: seq<string>, k: nat, p: Progress) {
    k <= |payloads| == |calls| && p == BatchSteps(cfg, budget, stream, event, b, calls[..k], payloads[..k])
  }

  lemma DeliveredNext(hs: seq<Handler>, event: string, payloads: seq<string>, k: nat,
                      before: seq<Delivery>, after: seq<Delivery>)
    requires k < |payloads| && DeliveredTo(hs, event, payloads, k, before, after)
    ensures DeliveredTo(hs, event, payloads, k + 1, before, after + Deliveries(hs, event, payloads[k]))
  {
    assert payloads[..k + 1][..k] == payloads[..k];
  }

  lemma SentNext(cfg: Settings, budget: int, stream: string, event: string, b: Breaker, calls: seq<Call>,
                 payloads: seq<string>, k: nat, p: Progress)
    requires k < |payloads| && SentTo(cfg, budget, stream, event, b, calls, payloads, k, p)
    ensures SentTo(cfg, budget, stream, event, b, calls, payloads, k + 1,
                   BatchStep(cfg, budget, stream, event, p, calls[k], payloads[k]))
  {
    assert payloads[..k + 1][..k] == payloads[..k] && calls[..k + 1][..k] == calls[..k];
  }

  lemma BatchSent(cfg: Settings, budget: int, stream: string, event: string, b: Breaker, calls: seq<Call>,
                  payloads: seq<string>, p: Progress, hs: seq<Handler>, before: seq<Delivery>, after: seq<Delivery>)
    requires SentTo(cfg, budget, stream, event, b, calls, payloads, |payloads|, p)
    requires DeliveredTo(hs, event, payloads, |payloads|, before, after)
    ensures p == BatchSteps(cfg, budget, stream, event, b, calls, payloads)
    ensures after == before + BatchDeliveries(hs, event, payloads)
  {
    assert payloads[..|payloads|] == payloads && calls[..|payloads|] == calls;
  }

  class HybridEventBus {
    const cfg: Settings
    const redisEnabled: bool
    const streamMap: map<string, string>
    const local: InMemoryEventBus
    var breaker: Breaker
    var redisLog: seq<Message>  // what Redis has taken in from this process
    var redisErrors: nat

    constructor (cfg: Settings, redisEnabled: bool, streamMap: map<string, string>, local: InMemoryEventBus)
      ensures this.cfg == cfg && this.redisEnabled == redisEnabled && this.streamMap == streamMap
      ensures this.local == local && breaker == Breaker(0, 0) && redisLog == []
    {
      this.cfg, this.redisEnabled, this.streamMap, this.local := cfg, redisEnabled, streamMap, local;
      breaker, redisLog, redisErrors := Breaker(0, 0), [], 0;
    }

    /** The stream an event goes to, or "" when it stays in the process. */
    function StreamOf(event: string): (stream: string)
      ensures stream != "" <==> redisEnabled && event in streamMap && streamMap[event] != ""
      ensures stream != "" ==> stream == streamMap[event]
    {
      if redisEnabled && event in streamMap then streamMap[event] else ""
    }

    method PublishToRedis(event: string, payload: string, c: Call) returns (attempted: bool, elapsed: nat)
      modifies this
      ensures attempted <==>
        redisEnabled && event in streamMap && streamMap[event] != "" && c.check >= old(breaker).openUntil
      ensures elapsed == if attempted then Elapsed(old(breaker), c) else 0
      ensures breaker == if attempted then Settle(cfg, old(breaker), c) else old(breaker)
      ensures redisLog == old(redisLog) + if attempted && c.ok then [Message(StreamOf(event), event, payload)] else []
      ensures redisErrors == old(redisErrors) + if attempted && !c.ok then 1 else 0
    {
      var stream := StreamOf(event);
      if stream == "" {
        return false, 0;
      }
      if c.check < breaker.openUntil {
        return false, 0;
      }
      if c.ok {
        redisLog := redisLog + [Message(stream, event, payload)];
        breaker := breaker.(failures := 0);
      } else {
        redisErrors := redisErrors + 1;
        breaker := breaker.(failures := breaker.failures + 1);
        if breaker.failures >= cfg.threshold {
          breaker := Breaker(0, c.end + cfg.cooldown);
        }
      }
      attempted := true;
      elapsed := if c.end > c.start then c.end - c.start else 0;
    }

    method Publish(event: string, payload: string, c: Call, raises: Handler -> bool)
      modifies this, local
      ensures local.handlers == old(local.handlers)
      ensures local.delivered == old(local.delivered) + Deliveries(local.Subscribers(event), event, payload)
      ensures breaker == if StreamOf(event) != "" then Settle(cfg, old(breaker), c) else old(breaker)
      ensures redisLog == old(redisLog) + if StreamOf(event) != "" && Allowed(old(breaker), c) && c.ok
                then [Message(StreamOf(event), event, payload)] else []
    {
      var _, _ := PublishToRedis(event, payload, c);
      local.Publish(event, payload, raises);
    }

    /** The Redis hop of one payload of a batch, skipped once the budget is spent. `before` is what Redis
        had taken in before the batch, `taken` what it has taken of the batch so far. */
    method RedisHop(event: string, payload: string, c: Call, budget: int, spent: nat, published: nat,
                    ghost before: seq<Message>, ghost taken: seq<Message>)
      returns (spentAfter: nat, publishedAfter: nat, ghost takenAfter: seq<Message>)
      requires redisLog == before + taken
      modifies this
      ensures Progress(breaker, spentAfter, publishedAfter, takenAfter)
           == BatchStep(cfg, budget, StreamOf(event), event, Progress(old(breaker), spent, published, taken), c, payload)
      ensures redisLog == before + takenAfter
      ensures publishedAfter - published == |takenAfter| - |taken| + redisErrors - old(redisErrors)
    {
      spentAfter, publishedAfter, takenAfter := spent, published, taken;
      if budget <= 0 || spent < budget {
        var attempted, elapsed := PublishToRedis(event, payload, c);
        if attempted {
          publishedAfter := publishedAfter + 1;
          if c.ok { takenAfter := taken + [Message(StreamOf(event), event, payload)]; }
        }
        spentAfter := spentAfter + elapsed;
      }
    }

    /** One payload of a batch: to Redis while the budget lasts, and to every local subscriber. */
    method PublishNext(event: string, payload: string, c: Call, budget: int, spent: nat, published: nat,
                       ghost before: seq<Message>, ghost taken: seq<Message>, raises: Handler -> bool)
      returns (spentAfter: nat, publishedAfter: nat, ghost takenAfter: seq<Message>)
      requires redisLog == before + taken
      modifies this, local
      ensures local.handlers == old(local.handlers)
      ensures local.delivered == old(local.delivered) + Deliveries(local.Subscribers(event), event, payload)
      ensures Progress(breaker, spentAfter, publishedAfter, takenAfter)
           == BatchStep(cfg, budget, StreamOf(event), event, Progress(old(breaker), spent, published, taken), c, payload)
      ensures redisLog == before + takenAfter
      ensures publishedAfter - published == |takenAfter| - |taken| + redisErrors - old(redisErrors)
    {
      spentAfter, publishedAfter, takenAfter := RedisHop(event, payload, c, budget, spent, published, before, taken);
      local.Publish(event, payload, raises);
    }

    /** Each payload reaches every local subscriber; Redis is skipped once the time budget is spent. The
        result counts the attempts, not what Redis took. */
    method PublishBatch(event: string, payloads: seq<string>, calls: seq<Call>, budget: int, raises: Handler -> bool)
      returns (published: nat)
      requires |calls| == |payloads|
      modifies this, local
      ensures local.handlers == old(local.handlers)
      ensures local.delivered == old(local.delivered) + BatchDeliveries(local.Subscribers(event), event, payloads)
      ensures var p := BatchSteps(cfg, budget, StreamOf(event), event, old(breaker), calls, payloads);
              breaker == p.breaker && redisLog == old(redisLog) + p.taken && published == p.attempts
      ensures published == |redisLog| - |old(redisLog)| + redisErrors - old(redisErrors)
    {
      published := 0;
      var spent: nat := 0;
      var k := 0;
      ghost var taken: seq<Message> := [];
      ghost var stream, hs := StreamOf(event), local.Subscribers(event);
      while k < |payloads|
        invariant 0 <= k <= |payloads| && local.handlers == old(local.handlers)
        invariant DeliveredTo(hs, event, payloads, k, old(local.delivered), local.delivered)
        invariant SentTo(cfg, budget, stream, event, old(breaker), calls, payloads, k,
                         Progress(breaker, spent, published, taken))
        invariant redisLog == old(redisLog) + taken && published == |taken| + redisErrors - old(redisErrors)
      {
        DeliveredNext(hs, event, payloads, k, old(local.delivered), local.delivered);
        SentNext(cfg, budget, stream, event, old(breaker), calls, payloads, k, Progress(breaker, spent, published, taken));
        spent, published, taken :=
          PublishNext(event, payloads[k], calls[k], budget, spent, published, old(redisLog), taken, raises);
        k := k + 1;
      }
      BatchSent(cfg, budget, stream, event, old(breaker), calls, payloads, Progress(breaker, spent, published, taken),
                hs, old(local.delivered), local.delivered);
    }

    /** An event from another process reaches the local subscribers and goes nowhere else. */
    method InjectFromRemote(event: string, payload: string, raises: Handler -> bool)
      modifies local
      ensures local.handlers == old(local.handlers)
      ensures local.delivered == old(local.delivered) + Deliveries(local.Subscribers(event), event, payload)
      ensures redisLog == old(redisLog) && breaker == old(breaker)
    {
      local.Publish(event, payload, raises);
    }
  }
}
