/** Retries and failover of the language-model providers: a few attempts at one provider while nothing has
    been shown yet, then at most one attempt at a backup. */
module LlmRetry {
  import opened Prelude
  import opened Arithmetic

  type Provider = nat

  datatype Event = Reasoning(text: string) | Token(text: string) | Failover(source: Provider, target: Provider)

  /** How an attempt ends: well, with a provider or transport error, or with an error nobody catches. */
  datatype End = Done | Failed(retryable: bool) | Crashed

  datatype Attempt = Attempt(chunks: seq<Event>, end: End)

  /** What each provider does at each attempt, and which backup it has. */
  datatype World = World(outcome: (Provider, nat) -> Attempt, backup: Provider -> Option<Provider>)

  /** The base of the backoff, and the jitter drawn for each attempt. */
  datatype Backoff = Backoff(base: real, jitter: nat -> real)

  datatype Ending = Success | Error | Escaped

  /** Everything a call does: what the consumer sees, which requests are sent, how long it sleeps. */
  datatype Run = Run(events: seq<Event>, requests: seq<(Provider, nat)>, slept: real, ending: Ending)

  predicate NoFailover(es: seq<Event>) {
    forall i :: 0 <= i < |es| ==> !es[i].Failover?
  }

  /** Providers send text, never failover events. */
  ghost predicate Plain(w: World) {
    forall p, k :: NoFailover(w.outcome(p, k).chunks)
  }

  ghost predicate ValidBackoff(b: Backoff) {
    forall k :: 0.0 <= b.jitter(k) <= 0.25
  }

  /** A negative base counts as none. */
  function Base(b: Backoff): (base: real)
    ensures base >= 0.0
  {
    if b.base < 0.0 then 0.0 else b.base
  }

  function Delay(b: Backoff, attempt: nat): real {
    var delay := Base(b) * (Pow2(attempt) as real);
    delay + delay * b.jitter(attempt)
  }

  /** The attempt is tried again: nothing was shown, the error is transient, and attempts are left. */
  predicate TriedAgain(a: Attempt, k: nat, max: int) {
    a.end.Failed? && a.end.retryable && a.chunks == [] && k < max
  }

  /** The last attempt at a provider, counted from `k`. */
  function LastAttempt(w: World, p: Provider, max: int, k: nat): (last: nat)
    ensures last >= k
    decreases if k < max then max - k else 0
  {
    if TriedAgain(w.outcome(p, k), k, max) then LastAttempt(w, p, max, k + 1) else k
  }

  function Requests(p: Provider, n: nat): seq<(Provider, nat)> {
    if n == 0 then [] else Requests(p, n - 1) + [(p, n - 1)]
  }

  function Slept(b: Backoff, n: nat): real {
    if n == 0 then 0.0 else Slept(b, n - 1) + Delay(b, n - 1)
  }

  /** The call as a whole. `retryCount` is 0 for the first provider and 1 for its backup. */
  function Streamed(w: World, b: Backoff, p: Provider, max: int, retryCount: nat): Run
    decreases if retryCount < 1 then 1 else 0
  {
    var last := LastAttempt(w, p, max, 0);
    var a := w.outcome(p, last);
    var sent, slept := Requests(p, last + 1), Slept(b, last);
    match a.end
    case Done => Run(a.chunks, sent, slept, Success)
    case Crashed => Run(a.chunks, sent, slept, Escaped)
    case Failed(_) =>
      if retryCount >= 1 || w.backup(p).None? then Run(a.chunks, sent, slept, Error)
      else
        var q := w.backup(p).value;
        var rest := Streamed(w, b, q, 0, retryCount + 1);
        Run(a.chunks + [Failover(p, q)] + rest.events, sent + rest.requests, slept + rest.slept, rest.ending)
  }

  /** `chat_stream` */
  method ChatStream(w: World, b: Backoff, p: Provider, max: int, retryCount: nat) returns (run: Run)
    ensures run == Streamed(w, b, p, max, retryCount)
    decreases if retryCount < 1 then 1 else 0
  {
    var events: seq<Event>, sent: seq<(Provider, nat)>, slept: real := [], [], 0.0;
    var attempt := 0;
    var firstByteSent := false;
    while true
      invariant !firstByteSent && events == [] && sent == Requests(p, attempt) && slept == Slept(b, attempt)
      invariant LastAttempt(w, p, max, attempt) == LastAttempt(w, p, max, 0)
      decreases LastAttempt(w, p, max, 0) - attempt
    {
      var a := w.outcome(p, attempt);
      sent := sent + [(p, attempt)];
      events := events + a.chunks;
      firstByteSent := firstByteSent || a.chunks != [];
      if a.end.Done? {
        return Run(events, sent, slept, Success);
      }
      if a.end.Crashed? {
        return Run(events, sent, slept, Escaped);
      }
      if !firstByteSent && attempt < max && a.end.retryable {
        slept := slept + Delay(b, attempt);
        attempt := attempt + 1;
        continue;
      }
      var backup := if retryCount >= 1 then None else w.backup(p);
      if backup.None? {
        return Run(events, sent, slept, Error);
      }
      var rest := ChatStream(w, b, backup.value, 0, retryCount + 1);
      return Run(events + [Failover(p, backup.value)] + rest.events, sent + rest.requests, slept + rest.slept, rest.ending);
    }
  }

  /** What marks the last attempt: every one before it was tried again and it was not. */
  lemma {:induction false} LastAttemptFacts(w: World, p: Provider, max: int, k: nat)
    ensures var last := LastAttempt(w, p, max, k);
            && !TriedAgain(w.outcome(p, last), last, max)
            && (forall j :: k <= j < last ==> TriedAgain(w.outcome(p, j), j, max))
    decreases if k < max then max - k else 0
  {
    if TriedAgain(w.outcome(p, k), k, max) { LastAttemptFacts(w, p, max, k + 1); }
  }

  lemma LastWithinBudget(w: World, p: Provider, max: int)
    ensures LastAttempt(w, p, max, 0) <= AtLeastZero(max)
  {
    LastAttemptFacts(w, p, max, 0);
    var last := LastAttempt(w, p, max, 0);
    if last > 0 { assert TriedAgain(w.outcome(p, last - 1), last - 1, max); }
  }

  lemma {:induction false} RequestsSize(p: Provider, n: nat)
    ensures |Requests(p, n)| == n
  {
    if n > 0 { RequestsSize(p, n - 1); }
  }

  /** A backup gets one attempt and has no backup of its own. */
  lemma BackupRun(w: World, b: Backoff, q: Provider)
    ensures var r := Streamed(w, b, q, 0, 1);
            r.events == w.outcome(q, 0).chunks && r.requests == [(q, 0)] && r.slept == 0.0
  {
    assert LastAttempt(w, q, 0, 0) == 0;
    assert Requests(q, 1) == Requests(q, 0) + [(q, 0)] == [(q, 0)];
  }

  predicate FailsOver(w: World, p: Provider, max: int) {
    w.outcome(p, LastAttempt(w, p, max, 0)).end.Failed? && w.backup(p).Some?
  }

  /** The consumer sees the chunks of one attempt at the provider, and if that attempt failed and there is a
      backup, one failover event and the chunks of the backup's only attempt. */
  lemma StreamShape(w: World, b: Backoff, p: Provider, max: int)
    ensures var r := Streamed(w, b, p, max, 0);
            var last := LastAttempt(w, p, max, 0);
            var shown := w.outcome(p, last).chunks;
            if FailsOver(w, p, max)
            then var q := w.backup(p).value;
                 r.events == shown + [Failover(p, q)] + w.outcome(q, 0).chunks
                 && r.requests == Requests(p, last + 1) + [(q, 0)]
            else r.events == shown && r.requests == Requests(p, last + 1)
  {
    if FailsOver(w, p, max) { BackupRun(w, b, w.backup(p).value); }
  }

  /** Nothing shown is ever shown again: the attempts before the last one at the provider had shown nothing,
      and had failed with a transient error; the last one did not, unless all retries were used. At most `max + 1` requests go to it. */
  lemma RetriesAreSilent(w: World, b: Backoff, p: Provider, max: int)
    ensures var last := LastAttempt(w, p, max, 0);
            forall k :: 0 <= k < last ==> w.outcome(p, k) == Attempt([], Failed(true))
    ensures w.outcome(p, LastAttempt(w, p, max, 0)) == Attempt([], Failed(true)) ==> LastAttempt(w, p, max, 0) >= max
    ensures |Streamed(w, b, p, max, 0).requests| <= AtLeastZero(max) + 2
    ensures !FailsOver(w, p, max) ==> |Streamed(w, b, p, max, 0).requests| <= AtLeastZero(max) + 1
  {
    LastAttemptFacts(w, p, max, 0);
    LastWithinBudget(w, p, max);
    StreamShape(w, b, p, max);
    RequestsSize(p, LastAttempt(w, p, max, 0) + 1);
  }

  /** There is one failover event if the call fails over, and none otherwise. */
  lemma OneFailover(w: World, b: Backoff, p: Provider, max: int)
    requires Plain(w)
    ensures Failovers(Streamed(w, b, p, max, 0).events) == if FailsOver(w, p, max) then 1 else 0
  {
    StreamShape(w, b, p, max);
    var shown := w.outcome(p, LastAttempt(w, p, max, 0)).chunks;
    NoFailovers(shown);
    if FailsOver(w, p, max) {
      var q := w.backup(p).value;
      var rest := w.outcome(q, 0).chunks;
      NoFailovers(rest);
      FailoversConcat(shown + [Failover(p, q)], rest);
      assert (shown + [Failover(p, q)])[..|shown|] == shown;
    }
  }

  function Failovers(es: seq<Event>): nat {
    if es == [] then 0 else Failovers(es[..|es| - 1]) + if es[|es| - 1].Failover? then 1 else 0
  }

  lemma {:induction false} NoFailovers(es: seq<Event>)
    requires NoFailover(es)
    ensures Failovers(es) == 0
  {
    if es != [] { NoFailovers(es[..|es| - 1]); }
  }

  lemma {:induction false} FailoversConcat(a: seq<Event>, b: seq<Event>)
    ensures Failovers(a + b) == Failovers(a) + Failovers(b)
  {
    if b == [] {
      assert a + b == a;
    } else {
      assert (a + b)[..|a + b| - 1] == a + b[..|b| - 1];
      FailoversConcat(a, b[..|b| - 1]);
    }
  }

  lemma ScaledJitter(d: real, j: real)
    requires 0.0 <= d && 0.0 <= j <= 0.25
    ensures 0.0 <= d + d * j <= 1.25 * d
  {
    assert d * (0.25 - j) >= 0.0;
  }

  lemma DelayBound(b: Backoff, k: nat)
    requires ValidBackoff(b)
    ensures 0.0 <= Delay(b, k) <= 1.25 * (Base(b) * (Pow2(k) as real))
  {
    ScaledJitter(Base(b) * (Pow2(k) as real), b.jitter(k));
  }

  /** The most that `n` retries can wait: the geometric sum of the delays, each with its full jitter. */
  function WaitBudget(b: Backoff, n: nat): real {
    1.25 * (Base(b) * ((Pow2(n) - 1) as real))
  }

  lemma Doubled(base: real, x: nat)
    ensures base * ((2 * x - 1) as real) == base * ((x - 1) as real) + base * (x as real)
  {
    assert (2 * x - 1) as real == (x - 1) as real + x as real;
  }

  lemma {:induction false} SleptBound(b: Backoff, n: nat)
    requires ValidBackoff(b)
    ensures 0.0 <= Slept(b, n) <= WaitBudget(b, n)
  {
    if n > 0 {
      SleptBound(b, n - 1);
      DelayBound(b, n - 1);
      Doubled(Base(b), Pow2(n - 1));
    }
  }

  lemma Scaled(base: real, x: real, y: real)
    requires base >= 0.0 && x <= y
    ensures base * x <= base * y
  {
    assert base * (y - x) >= 0.0;
  }

  lemma BudgetMonotone(b: Backoff, m: nat, n: nat)
    requires m <= n
    ensures WaitBudget(b, m) <= WaitBudget(b, n)
  {
    Pow2Monotone(m, n);
    Scaled(Base(b), (Pow2(m) - 1) as real, (Pow2(n) - 1) as real);
  }

  lemma SleptInRun(w: World, b: Backoff, p: Provider, max: int)
    ensures Streamed(w, b, p, max, 0).slept == Slept(b, LastAttempt(w, p, max, 0))
  {
    if FailsOver(w, p, max) { BackupRun(w, b, w.backup(p).value); }
  }

  /** All waiting of a call together, the backup's included, is at most `1.25 * base * (2^max - 1)`. */
  lemma BackoffBound(w: World, b: Backoff, p: Provider, max: int)
    requires ValidBackoff(b)
    ensures 0.0 <= Streamed(w, b, p, max, 0).slept <= 1.25 * (Base(b) * ((Pow2(AtLeastZero(max)) - 1) as real))
  {
    var last := LastAttempt(w, p, max, 0);
    SleptInRun(w, b, p, max);
    LastWithinBudget(w, p, max);
    SleptBound(b, last);
    BudgetMonotone(b, last, AtLeastZero(max));
  }

  lemma JitterAdds(d: real, j: real)
    requires d >= 0.0 && j >= 0.0
    ensures d + d * j >= d
  {
    assert d * j >= 0.0;
  }

  lemma DelayAtLeast(b: Backoff, k: nat)
    requires ValidBackoff(b)
    ensures Delay(b, k) >= Base(b) * (Pow2(k) as real)
    ensures b.jitter(k) == 0.0 ==> Delay(b, k) == Base(b) * (Pow2(k) as real)
  {
    Scaled(Base(b), 0.0, Pow2(k) as real);
    JitterAdds(Base(b) * (Pow2(k) as real), b.jitter(k));
  }

  /** The delays double: `n` retries wait at least `base * (2^n - 1)`. */
  lemma {:induction false} SleptAtLeast(b: Backoff, n: nat)
    requires ValidBackoff(b)
    ensures Slept(b, n) >= Base(b) * ((Pow2(n) - 1) as real)
  {
    if n > 0 {
      SleptAtLeast(b, n - 1);
      Doubled(Base(b), Pow2(n - 1));
      DelayAtLeast(b, n - 1);
    }
  }

  /** Without jitter they wait exactly that. */
  lemma {:induction false} SleptExactly(b: Backoff, n: nat)
    requires forall k :: b.jitter(k) == 0.0
    ensures Slept(b, n) == Base(b) * ((Pow2(n) - 1) as real)
  {
    if n > 0 {
      SleptExactly(b, n - 1);
      Doubled(Base(b), Pow2(n - 1));
      DelayAtLeast(b, n - 1);
    }
  }

  /** So a call waits at least that long for the retries it makes. */
  lemma BackoffAtLeast(w: World, b: Backoff, p: Provider, max: int)
    requires ValidBackoff(b) && b.base >= 0.0
    ensures var last := LastAttempt(w, p, max, 0);
            Streamed(w, b, p, max, 0).slept >= b.base * ((Pow2(last) - 1) as real)
  {
    SleptInRun(w, b, p, max);
    SleptAtLeast(b, LastAttempt(w, p, max, 0));
  }

  /** How one attempt ends for the caller when nobody is left to try. */
  function EndingOf(e: End): Ending {
    match e
    case Done => Success
    case Failed(_) => Error
    case Crashed => Escaped
  }

  /** A call ends as its last attempt does: the backup's if it fails over, the provider's otherwise. */
  lemma LastAttemptDecides(w: World, b: Backoff, p: Provider, max: int)
    ensures Streamed(w, b, p, max, 0).ending ==
      EndingOf(if FailsOver(w, p, max) then w.outcome(w.backup(p).value, 0).end
               else w.outcome(p, LastAttempt(w, p, max, 0)).end)
  {
    if FailsOver(w, p, max) { assert LastAttempt(w, w.backup(p).value, 0, 0) == 0; }
  }

  // ---------------------------------------------------------------- complete: the same without streaming

  datatype Reply = Text(text: string) | Refused(retryable: bool) | Unexpected

  /** A reply seen as an attempt that shows its whole text or nothing. */
  function AsAttempt(r: Reply): Attempt {
    match r
    case Text(text) => Attempt([Token(text)], Done)
    case Refused(retryable) => Attempt([], Failed(retryable))
    case Unexpected => Attempt([], Crashed)
  }

  /** The streamed world in which every attempt is one reply. */
  function AsWorld(reply: (Provider, nat) -> Reply, backup: Provider -> Option<Provider>): World {
    World((p: Provider, k: nat) => AsAttempt(reply(p, k)), backup)
  }

  /** `complete`: same requests, waits and ending as a stream of whole replies; its answer is what that
      stream shows, the failover, if any, before the text. */
  method Complete(reply: (Provider, nat) -> Reply, backup: Provider -> Option<Provider>, b: Backoff,
                  p: Provider, max: int, retryCount: nat)
    returns (answer: seq<Event>, sent: seq<(Provider, nat)>, slept: real, ending: Ending)
    ensures var r := Streamed(AsWorld(reply, backup), b, p, max, retryCount);
            sent == r.requests && slept == r.slept && ending == r.ending
            && (ending.Success? ==> answer == r.events)
    decreases if retryCount < 1 then 1 else 0
  {
    ghost var w := AsWorld(reply, backup);
    var attempt := 0;
    sent, slept := [], 0.0;
    while true
      invariant sent == Requests(p, attempt) && slept == Slept(b, attempt)
      invariant LastAttempt(w, p, max, attempt) == LastAttempt(w, p, max, 0)
      decreases LastAttempt(w, p, max, 0) - attempt
    {
      assert w.outcome(p, attempt) == AsAttempt(reply(p, attempt));
      sent := sent + [(p, attempt)];
      match reply(p, attempt)
      case Text(text) =>
        return [Token(text)], sent, slept, Success;
      case Unexpected =>
        return [], sent, slept, Escaped;
      case Refused(retryable) =>
        if attempt < max && retryable {
          slept := slept + Delay(b, attempt);
          attempt := attempt + 1;
          continue;
        }
        var q := if retryCount >= 1 then None else backup(p);
        if q.None? {
          return [], sent, slept, Error;
        }
        var rest, restSent, restSlept, restEnding := Complete(reply, backup, b, q.value, 0, retryCount + 1);
        return [Failover(p, q.value)] + rest, sent + restSent, slept + restSlept, restEnding;
    }
  }
}
