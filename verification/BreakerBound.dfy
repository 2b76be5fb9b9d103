/** What the circuit breaker bounds while Redis keeps failing. */
module BreakerBound {
  import opened EventBus

  /** Attempts made and circuits opened by a run of publishes, and the breaker after it. */
  datatype Tally = Tally(breaker: Breaker, attempts: nat, openings: nat)

  function Tallied(cfg: Settings, b: Breaker, calls: seq<Call>): Tally {
    if calls == [] then Tally(b, 0, 0) else
      var t := Tallied(cfg, b, calls[..|calls| - 1]);
      var c := calls[|calls| - 1];
      Tally(Settle(cfg, t.breaker, c),
            t.attempts + (if Allowed(t.breaker, c) then 1 else 0),
            t.openings + (if Allowed(t.breaker, c) && !c.ok && t.breaker.failures + 1 >= cfg.threshold then 1 else 0))
  }

  /** Sequential publishes, each ending no earlier than its check, none before `t0`. */
  ghost predicate Sequential(calls: seq<Call>, t0: int) {
    && (forall i :: 0 <= i < |calls| ==> t0 <= calls[i].check <= calls[i].end)
    && forall i, j :: 0 <= i < j < |calls| ==> calls[i].end <= calls[j].check
  }

  /** The failures that open the circuit, at least one. */
  function Opening(cfg: Settings): (n: nat)
    ensures n >= 1
  {
    if cfg.threshold < 1 then 1 else cfg.threshold
  }

  lemma {:induction false} TallyFacts(cfg: Settings, b: Breaker, calls: seq<Call>, t0: int)
    requires cfg.cooldown > 0 && b.failures < Opening(cfg) && Sequential(calls, t0)
    requires forall i :: 0 <= i < |calls| ==> !calls[i].ok
    ensures var t := Tallied(cfg, b, calls);
            && t.breaker.failures < Opening(cfg)
            && t.attempts <= Opening(cfg) * t.openings + t.breaker.failures
            && (t.openings > 0 ==> t.breaker.openUntil >= t0 + t.openings * cfg.cooldown)
  {
    if calls != [] {
      var n := |calls| - 1;
      TallyFacts(cfg, b, calls[..n], t0);
      var t := Tallied(cfg, b, calls[..n]);
      Times(Opening(cfg), t.openings);
      Times(cfg.cooldown, t.openings);
    }
  }

  /** From a closed circuit without failures, fewer than `threshold` failures in a row leave it closed, and the
      last of `threshold` opens it for one cooldown. */
  lemma {:induction false} ThresholdOpens(cfg: Settings, openUntil: int, calls: seq<Call>)
    requires |calls| <= Opening(cfg)
    requires forall i :: 0 <= i < |calls| ==> !calls[i].ok && calls[i].check >= openUntil
    ensures var t := Tallied(cfg, Breaker(0, openUntil), calls);
            && t.attempts == |calls|
            && t.breaker == if |calls| < Opening(cfg) then Breaker(|calls|, openUntil)
                            else Breaker(0, calls[|calls| - 1].end + cfg.cooldown)
  {
    if calls != [] { ThresholdOpens(cfg, openUntil, calls[..|calls| - 1]); }
  }

  lemma {:induction false} TalliedConcat(cfg: Settings, b: Breaker, a: seq<Call>, c: seq<Call>)
    ensures Tallied(cfg, b, a + c).breaker == Tallied(cfg, Tallied(cfg, b, a).breaker, c).breaker
    ensures Tallied(cfg, b, a + c).attempts == Tallied(cfg, b, a).attempts + Tallied(cfg, Tallied(cfg, b, a).breaker, c).attempts
  {
    if c == [] {
      assert a + c == a;
    } else {
      assert (a + c)[..|a + c| - 1] == a + c[..|c| - 1];
      TalliedConcat(cfg, b, a, c[..|c| - 1]);
    }
  }

  /** A success starts the count anew, whatever failed before it, and leaves the circuit as it is: of the failures
      after it all but the `threshold`-th leave the circuit closed, and that one opens it. */
  lemma {:induction false} SuccessStartsOver(cfg: Settings, b: Breaker, calls: seq<Call>, c: Call, more: seq<Call>)
    requires c.ok && c.check >= Tallied(cfg, b, calls).breaker.openUntil && |more| <= Opening(cfg)
    requires forall i :: 0 <= i < |more| ==> !more[i].ok && more[i].check >= Tallied(cfg, b, calls).breaker.openUntil
    ensures var openUntil := Tallied(cfg, b, calls).breaker.openUntil;
            var t := Tallied(cfg, b, calls + [c] + more);
            && t.attempts == Tallied(cfg, b, calls).attempts + 1 + |more|
            && t.breaker == if |more| < Opening(cfg) then Breaker(|more|, openUntil)
                            else Breaker(0, more[|more| - 1].end + cfg.cooldown)
  {
    var before := Tallied(cfg, b, calls).breaker;
    assert (calls + [c])[..|calls|] == calls;
    assert Tallied(cfg, b, calls + [c]).breaker == Breaker(0, before.openUntil);
    TalliedConcat(cfg, b, calls + [c], more);
    ThresholdOpens(cfg, before.openUntil, more);
  }

  /** The time that the attempts of a batch have taken, by the clock. */
  ghost function TimeTaken(calls: seq<Call>): nat {
    if calls == [] then 0 else
      var c := calls[|calls| - 1];
      TimeTaken(calls[..|calls| - 1]) + if c.end > c.start then c.end - c.start else 0
  }

  /** Every call of the batch finds the circuit closed. */
  ghost predicate ClosedThroughout(cfg: Settings, budget: int, stream: string, event: string, b: Breaker,
                                   calls: seq<Call>, payloads: seq<string>)
    requires |calls| == |payloads|
  {
    forall i :: 0 <= i < |calls| ==>
      calls[i].check >= BatchSteps(cfg, budget, stream, event, b, calls[..i], payloads[..i]).breaker.openUntil
  }

  lemma ClosedBefore(cfg: Settings, budget: int, stream: string, event: string, b: Breaker,
                     calls: seq<Call>, payloads: seq<string>, n: nat)
    requires |calls| == |payloads| == n + 1 && ClosedThroughout(cfg, budget, stream, event, b, calls, payloads)
    ensures ClosedThroughout(cfg, budget, stream, event, b, calls[..n], payloads[..n])
    ensures calls[n].check >= BatchSteps(cfg, budget, stream, event, b, calls[..n], payloads[..n]).breaker.openUntil
  {
    forall i | 0 <= i < n ensures calls[..n][..i] == calls[..i] && payloads[..n][..i] == payloads[..i] {
    }
  }

  /** The attempts were the first ones, each started before the budget was spent. */
  ghost predicate SpentOn(budget: int, calls: seq<Call>, p: Progress) {
    && p.attempts <= |calls| && p.spent == TimeTaken(calls[..p.attempts])
    && (p.attempts < |calls| ==> p.spent >= budget)
    && forall k :: 0 <= k < p.attempts ==> TimeTaken(calls[..k]) < budget
  }

  lemma SpentNext(budget: int, calls: seq<Call>, n: nat, p: Progress, spent: nat)
    requires |calls| == n + 1 && SpentOn(budget, calls[..n], p) && p.spent < budget
    requires spent == p.spent + if calls[n].end > calls[n].start then calls[n].end - calls[n].start else 0
    ensures p.attempts == n && spent == TimeTaken(calls) && forall k :: 0 <= k <= n ==> TimeTaken(calls[..k]) < budget
  {
    assert forall k :: 0 <= k <= n ==> calls[..n][..k] == calls[..k];
  }

  lemma SpentAlready(budget: int, calls: seq<Call>, n: nat, p: Progress)
    requires |calls| == n + 1 && SpentOn(budget, calls[..n], p) && p.spent >= budget
    ensures SpentOn(budget, calls, p)
  {
    assert forall k :: 0 <= k <= n ==> calls[..n][..k] == calls[..k];
  }

  /** While the circuit is closed a batch attempts every payload as long as its attempts, whether they fail or not,
      have taken less than the budget, and none after that. */
  lemma {:induction false} BudgetIsTime(cfg: Settings, budget: int, stream: string, event: string, b: Breaker,
                                        calls: seq<Call>, payloads: seq<string>)
    requires |calls| == |payloads| && stream != "" && budget > 0
    requires ClosedThroughout(cfg, budget, stream, event, b, calls, payloads)
    ensures SpentOn(budget, calls, BatchSteps(cfg, budget, stream, event, b, calls, payloads))
  {
    if calls != [] {
      var n := |calls| - 1;
      ClosedBefore(cfg, budget, stream, event, b, calls, payloads, n);
      BudgetIsTime(cfg, budget, stream, event, b, calls[..n], payloads[..n]);
      var before := BatchSteps(cfg, budget, stream, event, b, calls[..n], payloads[..n]);
      if before.spent < budget {
        SpentNext(budget, calls, n, before, BatchSteps(cfg, budget, stream, event, b, calls, payloads).spent);
        assert calls[..n + 1] == calls;
      } else {
        SpentAlready(budget, calls, n, before);
      }
    }
  }

  /** Without a budget every payload is attempted while the circuit is closed. */
  lemma {:induction false} NoBudgetNoEnd(cfg: Settings, budget: int, stream: string, event: string, b: Breaker,
                                         calls: seq<Call>, payloads: seq<string>)
    requires |calls| == |payloads| && stream != "" && budget <= 0
    requires ClosedThroughout(cfg, budget, stream, event, b, calls, payloads)
    ensures BatchSteps(cfg, budget, stream, event, b, calls, payloads).attempts == |calls|
  {
    if calls != [] {
      var n := |calls| - 1;
      ClosedBefore(cfg, budget, stream, event, b, calls, payloads, n);
      NoBudgetNoEnd(cfg, budget, stream, event, b, calls[..n], payloads[..n]);
    }
  }

  lemma Times(a: int, n: int)
    ensures a * (n + 1) == a * n + a && (n + 1) * a == n * a + a
  {
  }

  lemma QuotientAtLeast(x: int, n: nat, d: int)
    requires d > 0 && x >= n * d
    ensures x / d >= n
  {
    assert x == (x / d) * d + x % d;
    if x / d <= n - 1 {
      Monotone(x / d, n - 1, d);
      Times(d, n - 1);
    }
  }

  lemma Monotone(a: int, b: int, d: int)
    requires a <= b && d >= 0
    ensures a * d <= b * d && d * a <= d * b
  {
    assert (b - a) * d >= 0;
  }

  /** While Redis keeps failing, publishes whose checks fall within `span` of the first instant attempt it
      at most `threshold * (span / cooldown + 1)` times. */
  lemma {:induction false} AttemptsBounded(cfg: Settings, b: Breaker, calls: seq<Call>, t0: int, span: nat)
    requires cfg.cooldown > 0 && b.failures < Opening(cfg) && Sequential(calls, t0)
    requires forall i :: 0 <= i < |calls| ==> !calls[i].ok && calls[i].check <= t0 + span
    ensures Tallied(cfg, b, calls).attempts <= Opening(cfg) * (span / cfg.cooldown + 1)
  {
    Monotone(0, span / cfg.cooldown + 1, Opening(cfg));
    if calls != [] {
      var n := |calls| - 1;
      AttemptsBounded(cfg, b, calls[..n], t0, span);
      TallyFacts(cfg, b, calls[..n], t0);
      var t := Tallied(cfg, b, calls[..n]);
      if Allowed(t.breaker, calls[n]) {
        QuotientAtLeast(span, t.openings, cfg.cooldown);
        Monotone(t.openings + 1, span / cfg.cooldown + 1, Opening(cfg));
        Times(Opening(cfg), t.openings);
      }
    }
  }

  /** A circuit once open never closes earlier than set. */
  lemma OpenUntilGrows(cfg: Settings, b: Breaker, c: Call)
    requires cfg.cooldown >= 0 && c.check <= c.end
    ensures Settle(cfg, b, c).openUntil >= b.openUntil
  {
  }

  lemma {:induction false} StaysOpen(cfg: Settings, b: Breaker, calls: seq<Call>, i: nat, t0: int)
    requires i < |calls| && Sequential(calls, t0) && cfg.cooldown >= 0
    requires var before := Tallied(cfg, b, calls[..i]).breaker;
             Allowed(before, calls[i]) && !calls[i].ok && before.failures + 1 >= cfg.threshold
    ensures Tallied(cfg, b, calls).breaker.openUntil >= calls[i].end + cfg.cooldown
    decreases |calls|
  {
    var n := |calls| - 1;
    LastSettles(cfg, b, calls, n);
    if i < n {
      assert calls[..n][..i] == calls[..i] && calls[..n][i] == calls[i];
      StaysOpen(cfg, b, calls[..n], i, t0);
      OpenUntilGrows(cfg, Tallied(cfg, b, calls[..n]).breaker, calls[n]);
    }
  }

  lemma LastSettles(cfg: Settings, b: Breaker, calls: seq<Call>, n: nat)
    requires |calls| == n + 1
    ensures Tallied(cfg, b, calls).breaker == Settle(cfg, Tallied(cfg, b, calls[..n]).breaker, calls[n])
  {
  }

  /** No attempt is made while the circuit that call `i` opened is still open. */
  lemma NoAttemptWhileOpen(cfg: Settings, b: Breaker, calls: seq<Call>, i: nat, t0: int)
    requires i < |calls| - 1 && Sequential(calls, t0) && cfg.cooldown >= 0
    requires var before := Tallied(cfg, b, calls[..i]).breaker;
             Allowed(before, calls[i]) && !calls[i].ok && before.failures + 1 >= cfg.threshold
    ensures Allowed(Tallied(cfg, b, calls[..|calls| - 1]).breaker, calls[|calls| - 1]) ==>
              calls[|calls| - 1].check >= calls[i].end + cfg.cooldown
  {
    var earlier := calls[..|calls| - 1];
    assert earlier[..i] == calls[..i] && earlier[i] == calls[i];
    StaysOpen(cfg, b, earlier, i, t0);
  }

  /** A batch with a budget starts no Redis attempt once the budget is spent, and it over-runs by at most
      the one attempt that was under way. */
  lemma {:induction false} BudgetBounds(cfg: Settings, budget: int, stream: string, event: string, b: Breaker,
                                        calls: seq<Call>, payloads: seq<string>, longest: nat)
    requires |calls| == |payloads| && budget > 0
    requires forall i :: 0 <= i < |calls| ==> calls[i].end - calls[i].start <= longest
    ensures var p := BatchSteps(cfg, budget, stream, event, b, calls, payloads);
            p.spent < budget + longest && p.attempts <= |calls| && |p.taken| <= p.attempts
  {
    if calls != [] {
      var n := |calls| - 1;
      BudgetBounds(cfg, budget, stream, event, b, calls[..n], payloads[..n], longest);
    }
  }

  /** A batch counts at least the entries that Redis took, and no more when no call fails. */
  lemma {:induction false} AttemptsAreTakenAndFailed(cfg: Settings, budget: int, stream: string, event: string, b: Breaker,
                                                     calls: seq<Call>, payloads: seq<string>)
    requires |calls| == |payloads| && stream != ""
    ensures var p := BatchSteps(cfg, budget, stream, event, b, calls, payloads);
            |p.taken| <= p.attempts && ((forall i :: 0 <= i < |calls| ==> calls[i].ok) ==> |p.taken| == p.attempts)
  {
    if calls != [] {
      var n := |calls| - 1;
      AttemptsAreTakenAndFailed(cfg, budget, stream, event, b, calls[..n], payloads[..n]);
    }
  }

  /** A batch of one whose publish fails counts one attempt although Redis took nothing. */
  lemma FailedAttemptIsCounted(cfg: Settings, budget: int, stream: string, event: string, c: Call, payload: string)
    requires stream != "" && c.check >= 0 && !c.ok
    ensures var p := BatchSteps(cfg, budget, stream, event, Breaker(0, 0), [c], [payload]);
            p.attempts == 1 && p.taken == []
  {
    assert [c][..0] == [] && [payload][..0] == [];
    assert BatchSteps(cfg, budget, stream, event, Breaker(0, 0), [], []) == Progress(Breaker(0, 0), 0, 0, []);
  }
}
