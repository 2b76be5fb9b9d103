/** Applying a plan: batches in order, a refused batch retried row by row, refused rows reported. */
module BackfillRun {
  import opened UrlHashTable

  /** What a reader may see between two commits: unique hashes, no temporary value, and every row either
      as it was or with nothing but its own planned hash changed. */
  ghost predicate Safe(t0: Table, us: seq<Update>, token: string, t: Table) {
    && Unique(t) && NoTemp(t, token) && t.Keys == t0.Keys
    && forall id :: id in t0 ==> t[id] == t0[id] || RewrittenTo(t0, us, id, t[id])
  }

  ghost predicate RewrittenTo(t0: Table, us: seq<Update>, id: nat, row: Row)
    requires id in t0
  {
    exists k :: 0 <= k < |us| && us[k].id == id && row == t0[id].(hash := us[k].hash)
  }

  /** After the first `p` updates: the rows in `failed` and the rows not planned so far are untouched, the
      other planned rows hold their targets and are otherwise as they were. */
  ghost predicate Outcome(t0: Table, us: seq<Update>, p: nat, failed: seq<nat>, t: Table)
    requires p <= |us|
  {
    && t.Keys == t0.Keys
    && (forall id :: id in t0 && (forall k :: 0 <= k < p ==> us[k].id != id) ==> t[id] == t0[id])
    && (forall k :: 0 <= k < p && us[k].id in t0 ==>
          t[us[k].id] == if us[k].id in failed then t0[us[k].id] else t0[us[k].id].(hash := us[k].hash))
  }

  /** `failed` names planned rows, each once. */
  ghost predicate FailedAmong(us: seq<Update>, p: nat, failed: seq<nat>)
    requires p <= |us|
  {
    && (forall i, j :: 0 <= i < j < |failed| ==> failed[i] != failed[j])
    && (forall id :: id in failed ==> exists k :: 0 <= k < p && us[k].id == id)
  }

  lemma OutcomeIsSafe(t0: Table, us: seq<Update>, p: nat, failed: seq<nat>, t: Table, token: string)
    requires p <= |us| && Outcome(t0, us, p, failed, t) && Unique(t) && NoTemp(t, token)
    ensures Safe(t0, us, token, t)
  {
    forall id | id in t0 ensures t[id] == t0[id] || RewrittenTo(t0, us, id, t[id]) {
      if k :| 0 <= k < p && us[k].id == id {
        assert t[us[k].id] == if us[k].id in failed then t0[us[k].id] else t0[us[k].id].(hash := us[k].hash);
      }
    }
  }

  /** `after` continues `before` with safe states only. */
  ghost predicate SafeHistory(t0: Table, us: seq<Update>, token: string, before: seq<Table>, after: seq<Table>) {
    && |before| <= |after| && after[..|before|] == before
    && forall i :: |before| <= i < |after| ==> Safe(t0, us, token, after[i])
  }

  lemma HistoryStep(t0: Table, us: seq<Update>, token: string, before: seq<Table>, h: seq<Table>, t: Table)
    requires SafeHistory(t0, us, token, before, h) && Safe(t0, us, token, t)
    ensures SafeHistory(t0, us, token, before, h + [t])
  {
    assert (h + [t])[..|before|] == h[..|before|];
  }

  /** One write with its rollback: the table changes by the whole batch or not at all. */
  method TryBatch(s: Session, batch: seq<Update>, token: string) returns (ok: bool)
    requires s.working == s.committed
    requires Unique(s.committed) && NoTemp(s.committed, token) && Plannable(batch)
    modifies s
    ensures ok <==> Free(old(s.committed), batch)
    ensures s.working == s.committed
    ensures s.committed == if ok then Overlay(old(s.committed), Targets(batch)) else old(s.committed)
    ensures s.history == old(s.history) + if ok then [s.committed] else []
  {
    ok := WriteBatch(s, batch, token);
    if !ok {
      s.Rollback();
    }
  }

  /** When the turn of update `k` comes, another row still holds its target: it held it from the start, and no
      earlier update has moved it without failing. */
  ghost predicate Blocked(t: Table, us: seq<Update>, k: nat, failed: seq<nat>)
    requires k < |us|
  {
    exists j :: j in t && j != us[k].id && t[j].hash == us[k].hash && Stays(us, k, failed, j)
  }

  ghost predicate Stays(us: seq<Update>, k: nat, failed: seq<nat>, j: nat)
    requires k <= |us|
  {
    forall m :: 0 <= m < k && us[m].id == j ==> j in failed
  }

  /** A batch with its retry is over. Nothing failed if no outside row held a target; otherwise exactly the
      blocked rows did. */
  ghost predicate BatchDone(t: Table, batch: seq<Update>, failed: seq<nat>, token: string, now: Table) {
    && Unique(now) && NoTemp(now, token)
    && Outcome(t, batch, |batch|, failed, now) && FailedAmong(batch, |batch|, failed)
    && LostAreBlocked(t, batch, failed)
  }

  ghost predicate LostAreBlocked(t: Table, batch: seq<Update>, failed: seq<nat>) {
    forall i {:trigger Blocked(t, batch, i, failed)} :: 0 <= i < |batch| ==>
      (batch[i].id in failed <==> !Free(t, batch) && Blocked(t, batch, i, failed))
  }

  /** One batch with its retry. A batch that no outside row blocks loses nothing; a refused one loses exactly
      its blocked rows. */
  method ApplyBatch(s: Session, batch: seq<Update>, token: string) returns (updated: nat, failed: seq<nat>)
    requires s.working == s.committed
    requires Unique(s.committed) && NoTemp(s.committed, token) && Plannable(batch)
    requires forall u :: u in batch ==> u.id in s.committed
    modifies s
    ensures s.working == s.committed && updated + |failed| == |batch|
    ensures BatchDone(old(s.committed), batch, failed, token, s.committed)
    ensures Free(old(s.committed), batch) ==> failed == []
    ensures SafeHistory(old(s.committed), batch, token, old(s.history), s.history)
  {
    ghost var t := s.committed;
    updated, failed := |batch|, [];
    var ok := TryBatch(s, batch, token);
    if ok {
      FreeKeepsUnique(t, batch);
      TargetsKeepNoTemp(t, batch, token);
      WholeBatchOutcome(t, batch);
      OutcomeIsSafe(t, batch, |batch|, [], s.committed, token);
      assert failed == [];
    } else {
      updated, failed := RetryRows(s, batch, token);
    }
  }

  /** The rows of a refused batch one at a time. */
  method RetryRows(s: Session, batch: seq<Update>, token: string) returns (updated: nat, failed: seq<nat>)
    requires s.working == s.committed
    requires Unique(s.committed) && NoTemp(s.committed, token) && Plannable(batch)
    requires forall u :: u in batch ==> u.id in s.committed
    modifies s
    ensures s.working == s.committed && updated + |failed| == |batch|
    ensures Retried(old(s.committed), batch, |batch|, failed, token, s.committed)
    ensures SafeHistory(old(s.committed), batch, token, old(s.history), s.history)
  {
    updated, failed := 0, [];
    var k := 0;
    while k < |batch|
      invariant 0 <= k <= |batch| && updated + |failed| == k
      invariant s.working == s.committed && Retried(old(s.committed), batch, k, failed, token, s.committed)
      invariant SafeHistory(old(s.committed), batch, token, old(s.history), s.history)
    {
      var ok := RetryRow(s, batch, k, token, failed, old(s.committed), old(s.history));
      if ok {
        updated := updated + 1;
      } else {
        failed := failed + [batch[k].id];
      }
      k := k + 1;
    }
  }

  /** One retry: row `k` reaches its target or joins the failed ones. */
  method RetryRow(s: Session, batch: seq<Update>, k: nat, token: string, ghost failed: seq<nat>,
                  ghost t: Table, ghost before: seq<Table>) returns (ok: bool)
    requires k < |batch| && s.working == s.committed && Plannable(batch)
    requires forall u :: u in batch ==> u.id in t
    requires Retried(t, batch, k, failed, token, s.committed) && SafeHistory(t, batch, token, before, s.history)
    modifies s
    ensures s.working == s.committed && SafeHistory(t, batch, token, before, s.history)
    ensures Retried(t, batch, k + 1, if ok then failed else failed + [batch[k].id], token, s.committed)
  {
    RetryStep(t, batch, k, failed, token, s.committed);
    ok := TryBatch(s, [batch[k]], token);
    if ok {
      HistoryStep(t, batch, token, before, old(s.history), s.committed);
    }
  }

  /** What holds after `k` rows of a refused batch have been retried. */
  ghost predicate Retried(t: Table, batch: seq<Update>, k: nat, failed: seq<nat>, token: string, now: Table)
    requires k <= |batch|
  {
    && Unique(now) && NoTemp(now, token)
    && Outcome(t, batch, k, failed, now) && FailedAmong(batch, k, failed)
    && FailedAreBlocked(t, batch, k, failed)
  }

  ghost predicate FailedAreBlocked(t: Table, batch: seq<Update>, k: nat, failed: seq<nat>)
    requires k <= |batch|
  {
    forall i {:trigger Blocked(t, batch, i, failed)} :: 0 <= i < k ==>
      (batch[i].id in failed <==> Blocked(t, batch, i, failed))
  }

  /** Reporting row `k` changes no earlier verdict. */
  lemma EarlierVerdicts(t: Table, batch: seq<Update>, k: nat, failed: seq<nat>, i: nat)
    requires i <= k < |batch| && DistinctIds(batch)
    ensures Blocked(t, batch, i, failed + [batch[k].id]) <==> Blocked(t, batch, i, failed)
  {
    forall j ensures Stays(batch, i, failed + [batch[k].id], j) <==> Stays(batch, i, failed, j) {
    }
  }

  lemma VerdictNoted(t: Table, batch: seq<Update>, k: nat, failed: seq<nat>)
    requires k < |batch| && DistinctIds(batch) && FailedAmong(batch, k, failed) && FailedAreBlocked(t, batch, k, failed)
    ensures FailedAreBlocked(t, batch, k + 1, if Blocked(t, batch, k, failed) then failed + [batch[k].id] else failed)
  {
    assert batch[k].id !in failed;
    var after := if Blocked(t, batch, k, failed) then failed + [batch[k].id] else failed;
    forall i | 0 <= i < k + 1 ensures batch[i].id in after <==> Blocked(t, batch, i, after) {
      EarlierVerdicts(t, batch, k, failed, i);
    }
  }

  /** Who holds the target of row `k` when its turn comes. */
  lemma HolderNow(t: Table, batch: seq<Update>, k: nat, failed: seq<nat>, now: Table, j: nat)
    requires k < |batch| && Plannable(batch) && Outcome(t, batch, k, failed, now) && j in t
    ensures now[j].hash == batch[k].hash <==> t[j].hash == batch[k].hash && Stays(batch, k, failed, j)
  {
    if m :| 0 <= m < k && batch[m].id == j {
      assert now[batch[m].id] == if batch[m].id in failed then t[j] else t[j].(hash := batch[m].hash);
    } else {
      assert now[j] == t[j];
    }
  }

  lemma RefusedIsBlocked(t: Table, batch: seq<Update>, k: nat, failed: seq<nat>, now: Table)
    requires k < |batch| && Plannable(batch) && batch[k].id in t && Outcome(t, batch, k, failed, now)
    ensures Free(now, [batch[k]]) <==> !Blocked(t, batch, k, failed)
  {
    var u := batch[k];
    forall j | j in t ensures now[j].hash == u.hash <==> t[j].hash == u.hash && Stays(batch, k, failed, j) {
      HolderNow(t, batch, k, failed, now, j);
    }
    forall j ensures Planned([u], j) <==> j == u.id {
      if j == u.id { assert [u][0].id == j; }
    }
    assert [u][0].id in now;
    if j :| j in t && j != u.id && t[j].hash == u.hash && Stays(batch, k, failed, j) {
      assert HeldOutside(now, [u], [u][0].hash);
    }
  }

  lemma RetryStep(t: Table, batch: seq<Update>, k: nat, failed: seq<nat>, token: string, now: Table)
    requires k < |batch| && Plannable(batch) && (forall u :: u in batch ==> u.id in t)
    requires Retried(t, batch, k, failed, token, now)
    ensures Plannable([batch[k]])
    ensures Free(now, [batch[k]]) ==>
      && Retried(t, batch, k + 1, failed, token, Overlay(now, Targets([batch[k]])))
      && Safe(t, batch, token, Overlay(now, Targets([batch[k]])))
    ensures !Free(now, [batch[k]]) ==> Retried(t, batch, k + 1, failed + [batch[k].id], token, now)
  {
    assert batch[k] in batch;
    RetrySucceeds(t, batch, k, failed, now);
    RetryFails(t, batch, k, failed, now);
    VerdictNoted(t, batch, k, failed);
    RefusedIsBlocked(t, batch, k, failed, now);
    if Free(now, [batch[k]]) {
      assert [batch[k]][0].id in now;
      FreeKeepsUnique(now, [batch[k]]);
      TargetsKeepNoTemp(now, [batch[k]], token);
      OutcomeIsSafe(t, batch, k + 1, failed, Overlay(now, Targets([batch[k]])), token);
    }
  }

  /** A row whose turn comes is as it was and has not failed. */
  lemma NextUntouched(t: Table, batch: seq<Update>, k: nat, failed: seq<nat>, now: Table)
    requires k < |batch| && DistinctIds(batch)
    requires Outcome(t, batch, k, failed, now) && FailedAmong(batch, k, failed)
    ensures batch[k].id !in failed && (batch[k].id in t ==> now[batch[k].id] == t[batch[k].id])
  {
  }

  lemma RetrySucceeds(t: Table, batch: seq<Update>, k: nat, failed: seq<nat>, now: Table)
    requires k < |batch| && DistinctIds(batch)
    requires Outcome(t, batch, k, failed, now) && FailedAmong(batch, k, failed)
    ensures Outcome(t, batch, k + 1, failed, Overlay(now, Targets([batch[k]]))) && FailedAmong(batch, k + 1, failed)
  {
    NextUntouched(t, batch, k, failed, now);
    assert [batch[k]][..0] == [];
    assert Targets([batch[k]]) == map[batch[k].id := batch[k].hash];
  }

  lemma RetryFails(t: Table, batch: seq<Update>, k: nat, failed: seq<nat>, now: Table)
    requires k < |batch| && DistinctIds(batch)
    requires Outcome(t, batch, k, failed, now) && FailedAmong(batch, k, failed)
    ensures Outcome(t, batch, k + 1, failed + [batch[k].id], now) && FailedAmong(batch, k + 1, failed + [batch[k].id])
  {
    NextUntouched(t, batch, k, failed, now);
  }

  lemma WholeBatchOutcome(t: Table, batch: seq<Update>)
    requires Plannable(batch)
    ensures Outcome(t, batch, |batch|, [], Overlay(t, Targets(batch)))
  {
    TargetsDomain(batch);
    forall k | 0 <= k < |batch| ensures batch[k].id in Targets(batch) && Targets(batch)[batch[k].id] == batch[k].hash {
      TargetAt(batch, k);
    }
  }

  lemma HeldOutsideIsBlocked(t: Table, batch: seq<Update>, k: nat, failed: seq<nat>)
    requires k < |batch| && HeldOutside(t, batch, batch[k].hash)
    ensures Blocked(t, batch, k, failed)
  {
    var j :| j in t && t[j].hash == batch[k].hash && !Planned(batch, j);
    assert Stays(batch, k, failed, j);
    assert Planned(batch, batch[k].id);
  }

  /** Every row that holds the target of one of the first `p` updates is itself planned, in the same batch
      as that update or in an earlier one. */
  ghost predicate MovesUpTo(t0: Table, us: seq<Update>, p: nat, step: nat)
    requires step > 0 && p <= |us|
  {
    forall k, j :: 0 <= k < p && j in t0 && t0[j].hash == us[k].hash ==> MovedBy(us, j, k, step)
  }

  ghost predicate MovedBy(us: seq<Update>, j: nat, k: nat, step: nat)
    requires step > 0
  {
    exists m :: 0 <= m < |us| && us[m].id == j && m / step <= k / step
  }

  /** The first update of the batch of update `k`. */
  function Start(k: nat, step: nat): (p: nat)
    requires step > 0
    ensures p <= k
  {
    k - k % step
  }

  /** Some target of the batch from `p` on is held by a row that earlier batches have not moved and this
      batch does not write. */
  ghost predicate BatchRefused(t0: Table, us: seq<Update>, step: nat, p: nat, failed: seq<nat>)
    requires p <= |us|
  {
    exists k, j :: p <= k < p + step && k < |us| && j in t0 && t0[j].hash == us[k].hash
                   && Stays(us, p, failed, j) && !Within(us, p, step, j)
  }

  ghost predicate Within(us: seq<Update>, p: nat, step: nat, j: nat) {
    exists m :: p <= m < p + step && m < |us| && us[m].id == j
  }

  ghost predicate Fails(t0: Table, us: seq<Update>, step: nat, k: nat, failed: seq<nat>)
    requires step > 0 && k < |us|
  {
    BatchRefused(t0, us, step, Start(k, step), failed) && Blocked(t0, us, k, failed)
  }

  /** Which of the first `p` updates are reported: exactly those whose batch is refused and which are blocked
      when their turn comes. Whether an update is reported depends on earlier ones only. */
  ghost predicate FailedExactly(t0: Table, us: seq<Update>, p: nat, failed: seq<nat>, step: nat)
    requires step > 0 && p <= |us|
  {
    forall k {:trigger Fails(t0, us, step, k, failed)} :: 0 <= k < p ==>
      (us[k].id in failed <==> Fails(t0, us, step, k, failed))
  }

  /** The rows that fail, computed from the table, the plan and the batch size. */
  ghost function FailedRows(t0: Table, us: seq<Update>, step: nat, p: nat): seq<nat>
    requires step > 0 && p <= |us|
  {
    if p == 0 then [] else
      var earlier := FailedRows(t0, us, step, p - 1);
      if Fails(t0, us, step, p - 1, earlier) then earlier + [us[p - 1].id] else earlier
  }

  /** A run over all updates in batches of `step`: what it leaves, and which rows it reports. */
  ghost predicate Ran(t0: Table, us: seq<Update>, failed: seq<nat>, token: string, step: nat, t: Table)
    requires step > 0
  {
    && Applied(t0, us, |us|, failed, token, step, t) && FailedExactly(t0, us, |us|, failed, step)
    && forall id :: id in failed <==> id in FailedRows(t0, us, step, |us|)
  }

  /** Every row that holds a target is itself planned. */
  ghost predicate HoldersPlanned(t: Table, us: seq<Update>) {
    forall k, j :: 0 <= k < |us| && j in t && t[j].hash == us[k].hash ==> Planned(us, j)
  }

  /** One batch of everything moves all holders in time. */
  lemma OneBatchMovesAll(t: Table, us: seq<Update>, step: nat)
    requires step > 0 && step >= |us| && HoldersPlanned(t, us)
    ensures MovesUpTo(t, us, |us|, step)
  {
    forall k, j | 0 <= k < |us| && j in t && t[j].hash == us[k].hash ensures MovedBy(us, j, k, step) {
      assert Planned(us, j);
      var m :| 0 <= m < |us| && us[m].id == j;
      InFirstBatch(m, step);
      InFirstBatch(k, step);
    }
  }

  lemma InFirstBatch(m: nat, step: nat)
    requires m < step
    ensures m / step == 0
  {
  }

  lemma RunIsOver(t0: Table, us: seq<Update>, failed: seq<nat>, token: string, batchSize: int, step: nat, t: Table)
    requires DistinctIds(us) && step == if batchSize < 1 then 1 else batchSize
    requires Applied(t0, us, |us|, failed, token, step, t) && FailedExactly(t0, us, |us|, failed, step)
    ensures batchSize >= 1 ==> Ran(t0, us, failed, token, batchSize, t)
    ensures batchSize < 1 ==> Ran(t0, us, failed, token, 1, t)
    ensures batchSize >= |us| && HoldersPlanned(t0, us) ==> failed == []
  {
    FailedAreComputed(t0, us, step, failed);
    if step >= |us| && HoldersPlanned(t0, us) { OneBatchMovesAll(t0, us, step); }
  }

  /** The whole run. Every state committed on the way is safe; each planned row ends with its target or
      is reported with its old row; which rows are reported follows from the table the run starts from; and
      nothing fails exactly when every holder of a target moves in time. */
  method ApplyUpdates(s: Session, us: seq<Update>, batchSize: int, token: string)
    returns (updated: nat, failed: seq<nat>)
    requires s.working == s.committed
    requires Unique(s.committed) && NoTemp(s.committed, token) && Plannable(us)
    requires forall u :: u in us ==> u.id in s.committed
    modifies s
    ensures s.working == s.committed && updated + |failed| == |us|
    ensures batchSize >= 1 ==> Ran(old(s.committed), us, failed, token, batchSize, s.committed)
    ensures batchSize < 1 ==> Ran(old(s.committed), us, failed, token, 1, s.committed)
    ensures batchSize >= |us| && HoldersPlanned(old(s.committed), us) ==> failed == []
    ensures SafeHistory(old(s.committed), us, token, old(s.history), s.history)
  {
    ghost var t0, h0 := s.committed, s.history;
    var step := if batchSize < 1 then 1 else batchSize;
    updated, failed := 0, [];
    var start := 0;
    ghost var b := 0;  // batches done
    while start < |us|
      invariant 0 <= start <= |us| && (start == |us| || start == b * step)
      invariant s.working == s.committed && updated + |failed| == start
      invariant Applied(t0, us, start, failed, token, step, s.committed)
      invariant FailedExactly(t0, us, start, failed, step)
      invariant SafeHistory(t0, us, token, h0, s.history)
    {
      var end := if start + step < |us| then start + step else |us|;
      var done, lost := ApplyNextBatch(s, us, start, end, token, step, b, failed, t0, h0);
      updated, failed := updated + done, failed + lost;
      Multiples(b, b, step);
      start, b := end, b + 1;
    }
    RunIsOver(t0, us, failed, token, batchSize, step, s.committed);
  }

  /** The batch from `p` to `q`, with what the run knows by then. */
  method ApplyNextBatch(s: Session, us: seq<Update>, p: nat, q: nat, token: string, ghost step: nat, ghost b: nat,
                        ghost failed: seq<nat>, ghost t0: Table, ghost h0: seq<Table>)
    returns (done: nat, lost: seq<nat>)
    requires BatchAt(us, p, q, step, b) && Plannable(us) && (forall u :: u in us ==> u.id in t0)
    requires s.working == s.committed && Applied(t0, us, p, failed, token, step, s.committed)
    requires FailedExactly(t0, us, p, failed, step) && SafeHistory(t0, us, token, h0, s.history)
    modifies s
    ensures s.working == s.committed && done + |lost| == q - p
    ensures Applied(t0, us, q, failed + lost, token, step, s.committed)
    ensures FailedExactly(t0, us, q, failed + lost, step) && SafeHistory(t0, us, token, h0, s.history)
  {
    BatchOfPlan(us, p, q);
    ghost var t, h := s.committed, s.history;
    done, lost := ApplyBatch(s, us[p..q], token);
    BatchApplied(t0, us, p, q, step, b, failed, token, t, lost, s.committed);
    BatchFailsExactly(t0, us, p, q, step, b, failed, t, lost);
    HistoriesCompose(t0, us, p, q, failed, t, token, h0, h, s.history);
  }

  /** What holds between two batches. */
  ghost predicate Applied(t0: Table, us: seq<Update>, p: nat, failed: seq<nat>, token: string, step: nat, t: Table)
    requires p <= |us| && step > 0
  {
    && Unique(t) && NoTemp(t, token)
    && Outcome(t0, us, p, failed, t) && FailedAmong(us, p, failed)
    && (failed == [] <==> MovesUpTo(t0, us, p, step))
  }

  lemma BatchOfPlan(us: seq<Update>, p: nat, q: nat)
    requires p <= q <= |us| && Plannable(us)
    ensures Plannable(us[p..q]) && forall u :: u in us[p..q] ==> u in us
  {
    assert forall i :: 0 <= i < q - p ==> us[p..q][i] == us[p + i];
  }

  lemma BatchApplied(t0: Table, us: seq<Update>, p: nat, q: nat, step: nat, b: nat, failed: seq<nat>,
                     token: string, t: Table, lost: seq<nat>, r: Table)
    requires step > 0 && p == b * step && p < q <= |us| && (q == p + step || (q == |us| && q < p + step))
    requires Plannable(us) && (forall u :: u in us ==> u.id in t0)
    requires Applied(t0, us, p, failed, token, step, t)
    requires BatchDone(t, us[p..q], lost, token, r) && (Free(t, us[p..q]) ==> lost == [])
    ensures Applied(t0, us, q, failed + lost, token, step, r)
  {
    var batch := us[p..q];
    forall i | 0 <= i < q - p && HeldOutside(t, batch, batch[i].hash) ensures batch[i].id in lost {
      HeldOutsideIsBlocked(t, batch, i, lost);
      BatchOfPlan(us, p, q);
      assert batch[i] in batch;
    }
    OutcomesCompose(t0, us, p, q, failed, t, lost, r);
    BatchVerdict(t0, us, p, q, step, b, failed, t, lost);
  }

  ghost predicate BatchAt(us: seq<Update>, p: nat, q: nat, step: nat, b: nat) {
    step > 0 && p == b * step && p < q <= |us| && (q == p + step || (q == |us| && q < p + step))
  }

  lemma StartOf(us: seq<Update>, p: nat, q: nat, step: nat, b: nat, k: nat)
    requires BatchAt(us, p, q, step, b) && p <= k < q
    ensures Start(k, step) == p
  {
    Quotient(k, step, b);
    assert k == k / step * step + k % step;
  }

  /** Who holds the target of a coming update between two batches. */
  lemma HolderBetween(t0: Table, us: seq<Update>, p: nat, failed: seq<nat>, t: Table, k: nat, j: nat)
    requires p <= k < |us| && DistinctTargets(us) && j in t0 && Outcome(t0, us, p, failed, t)
    ensures t[j].hash == us[k].hash <==> t0[j].hash == us[k].hash && Stays(us, p, failed, j)
  {
    if m :| 0 <= m < p && us[m].id == j {
      assert t[us[m].id] == if us[m].id in failed then t0[j] else t0[j].(hash := us[m].hash);
    } else {
      assert t[j] == t0[j];
    }
  }

  lemma WithinIsPlanned(us: seq<Update>, p: nat, q: nat, step: nat, b: nat, j: nat)
    requires BatchAt(us, p, q, step, b)
    ensures Within(us, p, step, j) <==> Planned(us[p..q], j)
  {
    var batch := us[p..q];
    if Within(us, p, step, j) {
      var m :| p <= m < p + step && m < |us| && us[m].id == j;
      assert batch[m - p] == us[m];
    }
    if Planned(batch, j) {
      var i :| 0 <= i < |batch| && batch[i].id == j;
      assert us[p + i] == batch[i];
    }
  }

  lemma RefusedIsNotFree(t0: Table, us: seq<Update>, p: nat, q: nat, step: nat, b: nat, failed: seq<nat>, t: Table,
                         k: nat, j: nat)
    requires BatchAt(us, p, q, step, b) && DistinctTargets(us) && Outcome(t0, us, p, failed, t)
    requires p <= k < q && us[k].id in t0 && j in t0 && t0[j].hash == us[k].hash
    requires Stays(us, p, failed, j) && !Within(us, p, step, j)
    ensures !Free(t, us[p..q])
  {
    var batch := us[p..q];
    assert batch[k - p] == us[k];
    HolderBetween(t0, us, p, failed, t, k, j);
    WithinIsPlanned(us, p, q, step, b, j);
    assert HeldOutside(t, batch, batch[k - p].hash);
  }

  lemma NotFreeIsRefused(t0: Table, us: seq<Update>, p: nat, q: nat, step: nat, b: nat, failed: seq<nat>, t: Table, i: nat)
    requires BatchAt(us, p, q, step, b) && DistinctTargets(us) && Outcome(t0, us, p, failed, t)
    requires i < q - p && HeldOutside(t, us[p..q], us[p..q][i].hash)
    ensures BatchRefused(t0, us, step, p, failed)
  {
    var batch := us[p..q];
    var j :| j in t && t[j].hash == batch[i].hash && !Planned(batch, j);
    assert us[p + i] == batch[i];
    HolderBetween(t0, us, p, failed, t, p + i, j);
    WithinIsPlanned(us, p, q, step, b, j);
    assert p + i < p + step;
  }

  lemma RefusedBatch(t0: Table, us: seq<Update>, p: nat, q: nat, step: nat, b: nat, failed: seq<nat>, t: Table)
    requires BatchAt(us, p, q, step, b) && Plannable(us) && (forall u :: u in us ==> u.id in t0)
    requires Outcome(t0, us, p, failed, t)
    ensures Free(t, us[p..q]) <==> !BatchRefused(t0, us, step, p, failed)
  {
    if k, j :| p <= k < p + step && k < |us| && j in t0 && t0[j].hash == us[k].hash
               && Stays(us, p, failed, j) && !Within(us, p, step, j) {
      assert us[k] in us;
      RefusedIsNotFree(t0, us, p, q, step, b, failed, t, k, j);
    }
    if i :| 0 <= i < q - p && HeldOutside(t, us[p..q], us[p..q][i].hash) {
      NotFreeIsRefused(t0, us, p, q, step, b, failed, t, i);
    }
  }

  /** Being blocked at a batch's start, judged by what the batch loses, is being blocked in the run. */
  lemma BlockedInRun(t0: Table, us: seq<Update>, p: nat, q: nat, failed: seq<nat>, t: Table, lost: seq<nat>, k: nat)
    requires p <= k < q <= |us| && Plannable(us) && Outcome(t0, us, p, failed, t)
    requires FailedAmong(us, p, failed) && FailedAmong(us[p..q], q - p, lost)
    ensures Blocked(t, us[p..q], k - p, lost) <==> Blocked(t0, us, k, failed + lost)
  {
    assert us[p..q][k - p] == us[k];
    forall j | j in t0
      ensures t[j].hash == us[k].hash && Stays(us[p..q], k - p, lost, j)
        <==> t0[j].hash == us[k].hash && Stays(us, k, failed + lost, j)
    {
      HolderBetween(t0, us, p, failed, t, k, j);
      StaysJoin(us, p, q, failed, lost, k, j);
    }
  }

  lemma StaysJoin(us: seq<Update>, p: nat, q: nat, failed: seq<nat>, lost: seq<nat>, k: nat, j: nat)
    requires p <= k <= q <= |us| && DistinctIds(us)
    requires FailedAmong(us, p, failed) && FailedAmong(us[p..q], q - p, lost)
    ensures Stays(us, p, failed, j) && Stays(us[p..q], k - p, lost, j) <==> Stays(us, k, failed + lost, j)
  {
    var batch := us[p..q];
    assert forall i :: 0 <= i < q - p ==> batch[i] == us[p + i];
    if Stays(us, k, failed + lost, j) {
      forall m | 0 <= m < p && us[m].id == j ensures j in failed { NotLostLater(us, p, q, lost, m); }
      forall i | 0 <= i < k - p && batch[i].id == j ensures j in lost { NotFailedEarlier(us, p, failed, p + i); }
    }
    if Stays(us, p, failed, j) && Stays(batch, k - p, lost, j) {
      forall m | 0 <= m < k && us[m].id == j ensures j in failed + lost {
        if m >= p { assert batch[m - p].id == j; }
      }
    }
  }

  /** Later losses change no earlier verdict. */
  lemma LaterLosses(t0: Table, us: seq<Update>, p: nat, q: nat, step: nat, failed: seq<nat>, lost: seq<nat>, k: nat)
    requires step > 0 && k <= p <= q <= |us| && k < |us| && DistinctIds(us) && FailedAmong(us[p..q], q - p, lost)
    ensures BatchRefused(t0, us, step, Start(k, step), failed + lost) <==> BatchRefused(t0, us, step, Start(k, step), failed)
    ensures Blocked(t0, us, k, failed + lost) <==> Blocked(t0, us, k, failed)
  {
    forall i, j | 0 <= i <= k ensures Stays(us, i, failed + lost, j) <==> Stays(us, i, failed, j) {
      forall m | 0 <= m < i ensures us[m].id !in lost { NotLostLater(us, p, q, lost, m); }
    }
  }

  lemma BatchFailsExactly(t0: Table, us: seq<Update>, p: nat, q: nat, step: nat, b: nat, failed: seq<nat>,
                          t: Table, lost: seq<nat>)
    requires BatchAt(us, p, q, step, b) && Plannable(us) && (forall u :: u in us ==> u.id in t0)
    requires Outcome(t0, us, p, failed, t) && FailedAmong(us, p, failed) && FailedExactly(t0, us, p, failed, step)
    requires LostAreBlocked(t, us[p..q], lost) && FailedAmong(us[p..q], q - p, lost)
    ensures FailedExactly(t0, us, q, failed + lost, step)
  {
    forall k | 0 <= k < q ensures us[k].id in failed + lost <==> Fails(t0, us, step, k, failed + lost) {
      if k < p {
        assert Fails(t0, us, step, k, failed) <==> us[k].id in failed;
        LaterLosses(t0, us, p, q, step, failed, lost, k);
        NotLostLater(us, p, q, lost, k);
      } else {
        LostFails(t0, us, p, q, step, b, failed, t, lost, k);
      }
    }
  }

  lemma LostFails(t0: Table, us: seq<Update>, p: nat, q: nat, step: nat, b: nat, failed: seq<nat>, t: Table,
                  lost: seq<nat>, k: nat)
    requires BatchAt(us, p, q, step, b) && Plannable(us) && (forall u :: u in us ==> u.id in t0)
    requires Outcome(t0, us, p, failed, t) && FailedAmong(us, p, failed)
    requires LostAreBlocked(t, us[p..q], lost) && FailedAmong(us[p..q], q - p, lost) && p <= k < q
    ensures us[k].id in failed + lost <==> Fails(t0, us, step, k, failed + lost)
  {
    assert us[p..q][k - p] == us[k];
    NotFailedEarlier(us, p, failed, k);
    StartOf(us, p, q, step, b, k);
    RefusedBatch(t0, us, p, q, step, b, failed, t);
    LaterLosses(t0, us, p, q, step, failed, lost, p);
    StartOf(us, p, q, step, b, p);
    BlockedInRun(t0, us, p, q, failed, t, lost, k);
  }

  lemma NotLostLater(us: seq<Update>, p: nat, q: nat, lost: seq<nat>, k: nat)
    requires k < p <= q <= |us| && DistinctIds(us) && FailedAmong(us[p..q], q - p, lost)
    ensures us[k].id !in lost
  {
    forall i | 0 <= i < q - p ensures us[p..q][i].id != us[k].id {
      assert us[p..q][i] == us[p + i];
    }
  }

  lemma NotFailedEarlier(us: seq<Update>, p: nat, failed: seq<nat>, k: nat)
    requires p <= k < |us| && DistinctIds(us) && FailedAmong(us, p, failed)
    ensures us[k].id !in failed
  {
  }

  /** The table that a run starts from and its batches decide who fails. */
  lemma {:induction false} FailuresDetermined(t0: Table, us: seq<Update>, step: nat, f: seq<nat>, g: seq<nat>, p: nat)
    requires step > 0 && p <= |us| && FailedExactly(t0, us, |us|, f, step) && FailedExactly(t0, us, |us|, g, step)
    ensures forall k :: 0 <= k < p ==> (us[k].id in f <==> us[k].id in g)
  {
    if p > 0 {
      var k := p - 1;
      FailuresDetermined(t0, us, step, f, g, k);
      assert Fails(t0, us, step, k, f) <==> us[k].id in f;
      assert Fails(t0, us, step, k, g) <==> us[k].id in g;
      forall i, j | 0 <= i <= k ensures Stays(us, i, f, j) <==> Stays(us, i, g, j) {
      }
    }
  }

  /** Reporting update `p` changes no verdict up to it. */
  lemma ReportLater(t0: Table, us: seq<Update>, step: nat, p: nat, failed: seq<nat>, k: nat)
    requires step > 0 && k <= p < |us| && DistinctIds(us)
    ensures Fails(t0, us, step, k, failed + [us[p].id]) <==> Fails(t0, us, step, k, failed)
  {
    forall i, j | 0 <= i <= k ensures Stays(us, i, failed + [us[p].id], j) <==> Stays(us, i, failed, j) {
    }
  }

  ghost predicate AmongFirst(us: seq<Update>, p: nat, failed: seq<nat>)
    requires p <= |us|
  {
    forall id :: id in failed ==> exists k :: 0 <= k < p && us[k].id == id
  }

  lemma VerdictStays(t0: Table, us: seq<Update>, step: nat, p: nat, failed: seq<nat>, k: nat)
    requires step > 0 && k <= p < |us| && DistinctIds(us)
    requires AmongFirst(us, p, failed) && FailedExactly(t0, us, p, failed, step)
    ensures var now := if Fails(t0, us, step, p, failed) then failed + [us[p].id] else failed;
            us[k].id in now <==> Fails(t0, us, step, k, now)
  {
    ReportLater(t0, us, step, p, failed, k);
    if k < p {
      assert us[k].id in failed <==> Fails(t0, us, step, k, failed);
    } else {
      assert us[p].id !in failed;
    }
  }

  lemma {:induction false} FailedRowsAmong(t0: Table, us: seq<Update>, step: nat, p: nat)
    requires step > 0 && p <= |us|
    ensures AmongFirst(us, p, FailedRows(t0, us, step, p))
  {
    if p > 0 {
      FailedRowsAmong(t0, us, step, p - 1);
      var earlier, now := FailedRows(t0, us, step, p - 1), FailedRows(t0, us, step, p);
      forall id | id in now ensures exists k :: 0 <= k < p && us[k].id == id {
        if id in earlier { var k :| 0 <= k < p - 1 && us[k].id == id; }
      }
    }
  }

  lemma {:induction false} FailedRowsExactly(t0: Table, us: seq<Update>, step: nat, p: nat)
    requires step > 0 && p <= |us| && DistinctIds(us)
    ensures FailedExactly(t0, us, p, FailedRows(t0, us, step, p), step)
  {
    if p > 0 {
      FailedRowsExactly(t0, us, step, p - 1);
      FailedRowsAmong(t0, us, step, p - 1);
      OneMoreVerdict(t0, us, step, p - 1, FailedRows(t0, us, step, p - 1));
    }
  }

  lemma OneMoreVerdict(t0: Table, us: seq<Update>, step: nat, p: nat, failed: seq<nat>)
    requires step > 0 && p < |us| && DistinctIds(us)
    requires AmongFirst(us, p, failed) && FailedExactly(t0, us, p, failed, step)
    ensures FailedExactly(t0, us, p + 1, if Fails(t0, us, step, p, failed) then failed + [us[p].id] else failed, step)
  {
    var now := if Fails(t0, us, step, p, failed) then failed + [us[p].id] else failed;
    forall k | 0 <= k < p + 1 ensures us[k].id in now <==> Fails(t0, us, step, k, now) {
      VerdictStays(t0, us, step, p, failed, k);
    }
  }

  lemma FailedAreComputed(t0: Table, us: seq<Update>, step: nat, failed: seq<nat>)
    requires step > 0 && DistinctIds(us) && FailedAmong(us, |us|, failed) && FailedExactly(t0, us, |us|, failed, step)
    ensures forall id :: id in failed <==> id in FailedRows(t0, us, step, |us|)
  {
    FailedRowsExactly(t0, us, step, |us|);
    FailedRowsAmong(t0, us, step, |us|);
    FailuresDetermined(t0, us, step, failed, FailedRows(t0, us, step, |us|), |us|);
  }

  lemma OutcomesCompose(t0: Table, us: seq<Update>, p: nat, q: nat, failed: seq<nat>, t: Table,
                        lost: seq<nat>, r: Table)
    requires p <= q <= |us| && DistinctIds(us)
    requires Outcome(t0, us, p, failed, t) && FailedAmong(us, p, failed)
    requires Outcome(t, us[p..q], q - p, lost, r) && FailedAmong(us[p..q], q - p, lost)
    ensures Outcome(t0, us, q, failed + lost, r) && FailedAmong(us, q, failed + lost)
  {
    var batch := us[p..q];
    assert forall i :: 0 <= i < |batch| ==> batch[i] == us[p + i];
    forall id | id in lost ensures exists k :: p <= k < q && us[k].id == id {
      var i :| 0 <= i < q - p && batch[i].id == id;
      assert us[p + i].id == id;
    }
    forall id | id in t0 && (forall k :: 0 <= k < q ==> us[k].id != id) ensures r[id] == t0[id] {
      assert t[id] == t0[id];
      assert forall i :: 0 <= i < |batch| ==> batch[i].id != id;
    }
    forall k | 0 <= k < q && us[k].id in t0
      ensures r[us[k].id] == if us[k].id in failed + lost then t0[us[k].id] else t0[us[k].id].(hash := us[k].hash)
    {
      var id := us[k].id;
      if k < p {
        assert forall i :: 0 <= i < |batch| ==> batch[i].id != id;
        assert r[id] == t[id];
        assert id !in lost;
      } else {
        assert batch[k - p] == us[k];
        assert t[id] == t0[id];
        assert id !in failed;
        assert r[batch[k - p].id] == if id in lost then t[id] else t[id].(hash := us[k].hash);
      }
    }
    forall i, j | 0 <= i < j < |failed + lost| ensures (failed + lost)[i] != (failed + lost)[j] {
      if i < |failed| <= j {
        assert failed[i] in failed && lost[j - |failed|] in lost;
      }
    }
  }

  lemma SafeComposes(t0: Table, us: seq<Update>, p: nat, q: nat, failed: seq<nat>, t: Table,
                     token: string, r: Table)
    requires p <= q <= |us| && DistinctIds(us)
    requires Outcome(t0, us, p, failed, t) && Safe(t, us[p..q], token, r)
    ensures Safe(t0, us, token, r)
  {
    var batch := us[p..q];
    forall id | id in t0 ensures r[id] == t0[id] || RewrittenTo(t0, us, id, r[id]) {
      if r[id] == t[id] {
        if k :| 0 <= k < p && us[k].id == id {
          assert t[us[k].id] == if us[k].id in failed then t0[us[k].id] else t0[us[k].id].(hash := us[k].hash);
        }
      } else {
        var i :| 0 <= i < |batch| && batch[i].id == id && r[id] == t[id].(hash := batch[i].hash);
        assert us[p + i] == batch[i];
        assert t[id] == t0[id];
      }
    }
  }

  lemma HistoriesCompose(t0: Table, us: seq<Update>, p: nat, q: nat, failed: seq<nat>, t: Table,
                         token: string, h0: seq<Table>, h1: seq<Table>, h2: seq<Table>)
    requires p <= q <= |us| && DistinctIds(us) && Outcome(t0, us, p, failed, t)
    requires SafeHistory(t0, us, token, h0, h1) && SafeHistory(t, us[p..q], token, h1, h2)
    ensures SafeHistory(t0, us, token, h0, h2)
  {
    assert h2[..|h0|] == h2[..|h1|][..|h0|];
    forall i | |h0| <= i < |h2| ensures Safe(t0, us, token, h2[i]) {
      if i < |h1| {
        assert h2[..|h1|][i] == h2[i];
      } else {
        SafeComposes(t0, us, p, q, failed, t, token, h2[i]);
      }
    }
  }

  /** Whether a batch adds a failure, in terms of the table the run started from. */
  lemma BatchVerdict(t0: Table, us: seq<Update>, p: nat, q: nat, step: nat, b: nat, failed: seq<nat>,
                     t: Table, lost: seq<nat>)
    requires step > 0 && p == b * step && p < q <= |us| && (q == p + step || (q == |us| && q < p + step))
    requires Plannable(us) && Outcome(t0, us, p, failed, t)
    requires forall u :: u in us ==> u.id in t0
    requires Free(t, us[p..q]) ==> lost == []
    requires forall i :: 0 <= i < q - p && HeldOutside(t, us[p..q], us[p..q][i].hash) ==> us[p..q][i].id in lost
    requires failed == [] <==> MovesUpTo(t0, us, p, step)
    ensures failed + lost == [] <==> MovesUpTo(t0, us, q, step)
  {
    forall k, j | p <= k < q && j in t0 && t0[j].hash == us[k].hash && !MovedBy(us, j, k, step)
      ensures lost != []
    {
      NotInTime(us, p, q, step, b, k, j);
      LateHolderFails(t0, us, p, q, failed, t, k, j);
    }
    if failed == [] && MovesUpTo(t0, us, q, step) {
      TimelyBatchIsFree(t0, us, p, q, step, b, t);
    }
  }

  lemma NotInTime(us: seq<Update>, p: nat, q: nat, step: nat, b: nat, k: nat, j: nat)
    requires step > 0 && p == b * step && p < q <= |us| && (q == p + step || (q == |us| && q < p + step))
    requires p <= k < q && !MovedBy(us, j, k, step)
    ensures forall m :: 0 <= m < q ==> us[m].id != j
  {
    forall m | 0 <= m < q ensures us[m].id != j {
      SameBatchOrEarlier(m, k, p, step, b);
    }
  }

  lemma LateHolderFails(t0: Table, us: seq<Update>, p: nat, q: nat, failed: seq<nat>, t: Table, k: nat, j: nat)
    requires p <= k < q <= |us| && Outcome(t0, us, p, failed, t)
    requires j in t0 && t0[j].hash == us[k].hash && forall m :: 0 <= m < q ==> us[m].id != j
    ensures us[p..q][k - p] == us[k] && HeldOutside(t, us[p..q], us[p..q][k - p].hash)
  {
    assert t[j] == t0[j];
    assert !Planned(us[p..q], j);
  }

  /** A row that still holds a hash after `p` updates without failures has not been moved by them. */
  lemma NotMovedYet(t0: Table, us: seq<Update>, p: nat, t: Table, k: nat, j: nat)
    requires p <= k < |us| && DistinctTargets(us) && Outcome(t0, us, p, [], t)
    requires j in t && t[j].hash == us[k].hash
    ensures t[j] == t0[j] && forall m :: 0 <= m < p ==> us[m].id != j
  {
    forall m | 0 <= m < p ensures us[m].id != j {
      assert us[m].id in t0 ==> t[us[m].id].hash == us[m].hash;
    }
  }

  lemma TimelyBatchIsFree(t0: Table, us: seq<Update>, p: nat, q: nat, step: nat, b: nat, t: Table)
    requires step > 0 && p == b * step && p < q <= |us| && (q == p + step || (q == |us| && q < p + step))
    requires Plannable(us) && Outcome(t0, us, p, [], t)
    requires MovesUpTo(t0, us, q, step)
    ensures Free(t, us[p..q])
  {
    forall i, j | 0 <= i < q - p && j in t && t[j].hash == us[p..q][i].hash ensures Planned(us[p..q], j) {
      TimelyHolder(t0, us, p, q, step, b, t, p + i, j);
    }
  }

  lemma TimelyHolder(t0: Table, us: seq<Update>, p: nat, q: nat, step: nat, b: nat, t: Table, k: nat, j: nat)
    requires step > 0 && p == b * step && p < q <= |us| && (q == p + step || (q == |us| && q < p + step))
    requires DistinctTargets(us) && Outcome(t0, us, p, [], t)
    requires MovesUpTo(t0, us, q, step)
    requires p <= k < q && j in t && t[j].hash == us[k].hash
    ensures Planned(us[p..q], j)
  {
    NotMovedYet(t0, us, p, t, k, j);
    assert MovedBy(us, j, k, step);
    var m :| 0 <= m < |us| && us[m].id == j && m / step <= k / step;
    SameBatchOrEarlier(m, k, p, step, b);
    assert us[p..q][m - p] == us[m];
  }

  /** Two rows of one batch that hold each other's targets both fail when anything gets the batch refused. */
  lemma SwapFails(t0: Table, us: seq<Update>, step: nat, failed: seq<nat>, i: nat, k: nat)
    requires step > 0 && i < k < |us| && DistinctIds(us) && Start(i, step) == Start(k, step)
    requires FailedExactly(t0, us, |us|, failed, step) && BatchRefused(t0, us, step, Start(i, step), failed)
    requires us[i].id in t0 && us[k].id in t0 && t0[us[k].id].hash == us[i].hash && t0[us[i].id].hash == us[k].hash
    ensures us[i].id in failed && us[k].id in failed
  {
    assert Stays(us, i, failed, us[k].id);
    assert Fails(t0, us, step, i, failed);
    assert Stays(us, k, failed, us[i].id);
    assert Fails(t0, us, step, k, failed);
  }

  lemma SameBatchOrEarlier(m: nat, k: nat, p: nat, step: nat, b: nat)
    requires step > 0 && p == b * step && p <= k < p + step
    ensures m < p + step <==> m / step <= k / step
  {
    Quotient(k, step, b);
    if m < p + step {
      if m / step > b { QuotientBound(m, step, b + 1); }
    } else if m / step <= b {
      QuotientBelow(m, step, b);
    }
  }

  lemma Quotient(k: nat, step: nat, b: nat)
    requires step > 0 && b * step <= k < b * step + step
    ensures k / step == b
  {
    if k / step < b {
      QuotientBelow(k, step, b - 1);
      Multiples(b - 1, b, step);
    } else if k / step > b {
      QuotientBound(k, step, b + 1);
      Multiples(b, b + 1, step);
    }
  }

  lemma QuotientBound(m: nat, step: nat, b: nat)
    requires step > 0 && m / step >= b
    ensures m >= b * step
  {
    Multiples(b, m / step, step);
    assert m == (m / step) * step + m % step;
  }

  lemma QuotientBelow(m: nat, step: nat, b: nat)
    requires step > 0 && m / step <= b
    ensures m < b * step + step
  {
    Multiples(m / step, b, step);
    assert m == (m / step) * step + m % step;
  }

  lemma Multiples(a: nat, b: nat, step: nat)
    requires a <= b
    ensures a * step <= b * step
    ensures (a + 1) * step == a * step + step
  {
    assert (b - a) * step >= 0;
  }
}
