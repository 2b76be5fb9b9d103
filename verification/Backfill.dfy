/** `run_backfill`: plan, apply, and what a second run finds. */
module Backfill {
  import opened Prelude
  import opened UrlHashTable
  import opened BackfillPlan
  import opened BackfillRun

  /** The hash of a normalised URL is a digest, whatever the URL. */
  ghost predicate Digesting(digest: string -> string) {
    forall url :: IsDigest(digest(url))
  }

  lemma PrimaryUnique(t: Table, digest: string -> string, a: nat, b: nat)
    requires IsPrimary(t, digest, a) && IsPrimary(t, digest, b) && digest(t[a].url) == digest(t[b].url)
    ensures a == b
  {
    assert SameGroup(t, digest, a, b) && SameGroup(t, digest, b, a);
  }

  lemma PrimaryExists(t: Table, digest: string -> string, id: nat) returns (p: nat)
    requires id in t && !Blank(t[id].url)
    ensures IsPrimary(t, digest, p) && SameGroup(t, digest, id, p)
  {
    var rows := LoadRows(t, digest);
    var h := digest(t[id].url);
    assert Snap(id, t[id], digest) in GroupOf(rows, h);
    p := SelectPrimary(GroupOf(rows, h), h).id;
    PrimaryOfGroup(t, digest, rows, h, p);
    assert SelectPrimary(GroupOf(rows, h), h) in rows;
  }

  /** A plan never writes one row twice and never gives two rows the same hash. */
  lemma PlanIsPlannable(t: Table, digest: string -> string, us: seq<Update>)
    requires UpdatesFor(t, digest, us) && Digesting(digest)
    ensures Plannable(us) && forall u :: u in us ==> u.id in t
  {
    forall i, j | 0 <= i < j < |us| ensures us[i].hash != us[j].hash {
      assert us[i] in us && us[j] in us;
      if us[i].hash == us[j].hash { PrimaryUnique(t, digest, us[i].id, us[j].id); }
    }
  }

  method RunBackfill(s: Session, digest: string -> string, apply: bool, batchSize: int, token: string)
    returns (plan: Plan, updated: nat, failed: seq<nat>)
    requires s.working == s.committed && Unique(s.committed) && NoTemp(s.committed, token) && Digesting(digest)
    modifies s
    ensures PlanFor(old(s.committed), digest, plan)
    ensures !apply ==> s.committed == old(s.committed) && s.history == old(s.history) && updated == 0 && failed == []
    ensures apply ==>
              && (batchSize >= 1 ==> Ran(old(s.committed), plan.updates, failed, token, batchSize, s.committed))
              && (batchSize < 1 ==> Ran(old(s.committed), plan.updates, failed, token, 1, s.committed))
              && (batchSize >= |plan.updates| && HoldersPlanned(old(s.committed), plan.updates) ==> failed == [])
              && updated + |failed| == |plan.updates|
              && SafeHistory(old(s.committed), plan.updates, token, old(s.history), s.history)
  {
    plan := BuildPlan(s.committed, digest);
    updated, failed := 0, [];
    if apply {
      PlanIsPlannable(s.committed, digest, plan.updates);
      updated, failed := ApplyUpdates(s, plan.updates, batchSize, token);
    }
  }

  /** The planned updates of the rows that failed, in plan order. */
  function StillDue(us: seq<Update>, failed: seq<nat>): seq<Update> {
    if us == [] then [] else
      StillDue(us[..|us| - 1], failed) + if us[|us| - 1].id in failed then [us[|us| - 1]] else []
  }

  /** A second plan chooses the same primaries and repeats exactly the updates that failed. So the second
      run changes nothing if and only if the first run failed on nothing. */
  lemma SecondPlan(t0: Table, digest: string -> string, us: seq<Update>, failed: seq<nat>, token: string,
                   step: nat, t1: Table, us1: seq<Update>)
    requires step > 0 && UpdatesFor(t0, digest, us) && UpdatesFor(t1, digest, us1)
    requires Applied(t0, us, |us|, failed, token, step, t1)
    ensures forall id :: IsPrimary(t0, digest, id) <==> IsPrimary(t1, digest, id)
    ensures us1 == StillDue(us, failed)
    ensures us1 == [] <==> failed == []
    ensures us1 == [] <==> MovesUpTo(t0, us, |us|, step)
  {
    forall id ensures IsPrimary(t0, digest, id) <==> IsPrimary(t1, digest, id) {
      PrimarySettled(t0, digest, us, failed, token, step, t1, id);
    }
    RepeatsFailures(t0, digest, us, failed, token, step, t1, us1);
    NothingLeftIff(us, failed);
  }

  lemma RepeatsFailures(t0: Table, digest: string -> string, us: seq<Update>, failed: seq<nat>, token: string,
                        step: nat, t1: Table, us1: seq<Update>)
    requires step > 0 && UpdatesFor(t0, digest, us) && UpdatesFor(t1, digest, us1)
    requires Applied(t0, us, |us|, failed, token, step, t1)
    ensures us1 == StillDue(us, failed)
  {
    StillDueMembers(us, failed);
    StillDueInOrder(us, failed);
    forall u ensures u in us1 <==> u in StillDue(us, failed) {
      DueAgain(t0, digest, us, failed, token, step, t1, u);
    }
    SameUpdates(us1, StillDue(us, failed));
  }

  lemma NothingLeftIff(us: seq<Update>, failed: seq<nat>)
    requires FailedAmong(us, |us|, failed)
    ensures StillDue(us, failed) == [] <==> failed == []
  {
    StillDueMembers(us, failed);
    if failed != [] {
      assert failed[0] in failed;
      var k :| 0 <= k < |us| && us[k].id == failed[0];
      assert us[k] in us && us[k] in StillDue(us, failed);
    } else if StillDue(us, failed) != [] {
      assert StillDue(us, failed)[0] in StillDue(us, failed);
    }
  }

  /** Rows that are not due are exactly as they were. */
  lemma NotDueUntouched(t0: Table, digest: string -> string, us: seq<Update>, failed: seq<nat>, t1: Table, id: nat)
    requires UpdatesFor(t0, digest, us) && Outcome(t0, us, |us|, failed, t1)
    requires id in t0 && !Due(t0, digest, Update(id, digest(t0[id].url)))
    ensures t1[id] == t0[id]
  {
    forall k | 0 <= k < |us| ensures us[k].id != id {
      assert us[k] in us && Due(t0, digest, us[k]);
    }
  }

  lemma DueSettled(t0: Table, digest: string -> string, us: seq<Update>, failed: seq<nat>, t1: Table, id: nat)
    requires UpdatesFor(t0, digest, us) && Outcome(t0, us, |us|, failed, t1)
    requires id in t0 && Due(t0, digest, Update(id, digest(t0[id].url)))
    ensures t1[id] == if id in failed then t0[id] else t0[id].(hash := digest(t0[id].url))
  {
    assert Update(id, digest(t0[id].url)) in us;
    var k :| 0 <= k < |us| && us[k] == Update(id, digest(t0[id].url));
    assert us[k].id in t0;
  }

  /** The run moves a row's hash only; its URL and instant stay, and so does every group. */
  lemma GroupsStay(t0: Table, digest: string -> string, us: seq<Update>, failed: seq<nat>, t1: Table, id: nat)
    requires UpdatesFor(t0, digest, us) && Outcome(t0, us, |us|, failed, t1) && id in t0
    ensures id in t1 && t1[id] == t0[id].(hash := t1[id].hash)
  {
    if Due(t0, digest, Update(id, digest(t0[id].url))) {
      DueSettled(t0, digest, us, failed, t1, id);
    } else {
      NotDueUntouched(t0, digest, us, failed, t1, id);
    }
  }

  lemma PrimaryStays(t0: Table, digest: string -> string, us: seq<Update>, failed: seq<nat>, t1: Table, p: nat)
    requires UpdatesFor(t0, digest, us) && Outcome(t0, us, |us|, failed, t1) && Unique(t1)
    requires IsPrimary(t0, digest, p)
    ensures IsPrimary(t1, digest, p)
  {
    var h := digest(t0[p].url);
    GroupsStay(t0, digest, us, failed, t1, p);
    forall k | k in t1 && SameGroup(t1, digest, p, k)
      ensures Preferred(Snap(p, t1[p], digest), Snap(k, t1[k], digest), h)
    {
      GroupsStay(t0, digest, us, failed, t1, k);
      assert SameGroup(t0, digest, p, k);
      if k != p && t1[p].hash != h {
        // Then `p` failed, nobody in the group ever held `h`, and `k` was not due.
        if !Due(t0, digest, Update(p, h)) {
          NotDueUntouched(t0, digest, us, failed, t1, p);
        } else {
          DueSettled(t0, digest, us, failed, t1, p);
        }
        if Due(t0, digest, Update(k, h)) { PrimaryUnique(t0, digest, p, k); }
        NotDueUntouched(t0, digest, us, failed, t1, k);
      }
    }
  }

  lemma PrimarySettled(t0: Table, digest: string -> string, us: seq<Update>, failed: seq<nat>, token: string,
                       step: nat, t1: Table, id: nat)
    requires step > 0 && UpdatesFor(t0, digest, us) && Applied(t0, us, |us|, failed, token, step, t1)
    ensures IsPrimary(t0, digest, id) <==> IsPrimary(t1, digest, id)
  {
    if IsPrimary(t0, digest, id) {
      PrimaryStays(t0, digest, us, failed, t1, id);
    }
    if IsPrimary(t1, digest, id) {
      GroupsStay(t0, digest, us, failed, t1, id);
      var p := PrimaryExists(t0, digest, id);
      PrimaryStays(t0, digest, us, failed, t1, p);
      GroupsStay(t0, digest, us, failed, t1, p);
      PrimaryUnique(t1, digest, id, p);
    }
  }

  lemma DueAgain(t0: Table, digest: string -> string, us: seq<Update>, failed: seq<nat>, token: string,
                 step: nat, t1: Table, u: Update)
    requires step > 0 && UpdatesFor(t0, digest, us) && Applied(t0, us, |us|, failed, token, step, t1)
    ensures Due(t1, digest, u) <==> u in us && u.id in failed
  {
    PrimarySettled(t0, digest, us, failed, token, step, t1, u.id);
    if u.id in t0 {
      GroupsStay(t0, digest, us, failed, t1, u.id);
      if Due(t0, digest, Update(u.id, digest(t0[u.id].url))) {
        DueSettled(t0, digest, us, failed, t1, u.id);
      } else {
        NotDueUntouched(t0, digest, us, failed, t1, u.id);
      }
    }
  }

  lemma {:induction false} StillDueMembers(us: seq<Update>, failed: seq<nat>)
    ensures forall u :: u in StillDue(us, failed) <==> u in us && u.id in failed
  {
    if us != [] {
      StillDueMembers(us[..|us| - 1], failed);
      assert us == us[..|us| - 1] + [us[|us| - 1]];
    }
  }

  ghost predicate IdsIncrease(us: seq<Update>) {
    forall i, j :: 0 <= i < j < |us| ==> us[i].id < us[j].id
  }

  lemma {:induction false} StillDueInOrder(us: seq<Update>, failed: seq<nat>)
    requires IdsIncrease(us)
    ensures IdsIncrease(StillDue(us, failed))
  {
    if us != [] {
      var n := |us| - 1;
      StillDueInOrder(us[..n], failed);
      StillDueMembers(us[..n], failed);
      var rest := StillDue(us[..n], failed);
      forall i | 0 <= i < |rest| ensures rest[i].id < us[n].id {
        assert rest[i] in rest;
        assert rest[i] in us[..n];
      }
    }
  }

  lemma {:induction false} SameUpdates(a: seq<Update>, b: seq<Update>)
    requires IdsIncrease(a) && IdsIncrease(b) && forall u :: u in a <==> u in b
    ensures a == b
  {
    assert a != [] ==> a[0] in b;
    assert b != [] ==> b[0] in a;
    if a != [] {
      assert a[0] == b[0];
      TailMembers(a);
      TailMembers(b);
      SameUpdates(a[1..], b[1..]);
      assert a == [a[0]] + a[1..] && b == [b[0]] + b[1..];
    }
  }

  lemma TailMembers(a: seq<Update>)
    requires IdsIncrease(a) && a != []
    ensures forall u :: u in a[1..] <==> u in a && u != a[0]
  {
    assert a == [a[0]] + a[1..];
    forall u | u in a[1..] ensures u.id > a[0].id {
      var i :| 0 <= i < |a| - 1 && a[1..][i] == u;
      assert a[i + 1] == u;
    }
  }

  lemma NoMemberHoldsTarget(t: Table, digest: string -> string, u: Update, j: nat)
    requires Due(t, digest, u) && SameGroup(t, digest, u.id, j)
    ensures t[j].hash != u.hash
  {
    assert Preferred(Snap(u.id, t[u.id], digest), Snap(j, t[j], digest), u.hash);
  }

  /** When every holder of a target belongs to that target's own group, nothing fails. */
  lemma OwnHoldersNeverFail(t: Table, digest: string -> string, us: seq<Update>, step: nat)
    requires step > 0 && UpdatesFor(t, digest, us)
    requires forall u, j :: u in us && j in t && t[j].hash == u.hash ==> SameGroup(t, digest, u.id, j)
    ensures MovesUpTo(t, us, |us|, step)
  {
    forall k, j | 0 <= k < |us| && j in t ensures t[j].hash != us[k].hash {
      assert us[k] in us;
      if SameGroup(t, digest, us[k].id, j) { NoMemberHoldsTarget(t, digest, us[k], j); }
    }
  }

  /** Two updates that want each other's hashes. */
  ghost predicate Swap(t: Table, u: Update, v: Update) {
    u.id != v.id && u.id in t && v.id in t && t[v.id].hash == u.hash && t[u.id].hash == v.hash
  }

  /** The two-phase write clears a swap inside one batch. */
  lemma SwapInOneBatchSucceeds(t: Table, us: seq<Update>, failed: seq<nat>, token: string, after: Table)
    requires |us| == 2 && Swap(t, us[0], us[1]) && Unique(t) && Applied(t, us, 2, failed, token, 2, after)
    ensures failed == []
  {
    SwapMoves(t, us);
  }

  lemma SwapMoves(t: Table, us: seq<Update>)
    requires |us| == 2 && Swap(t, us[0], us[1]) && Unique(t)
    ensures MovesUpTo(t, us, 2, 2)
  {
    forall k, j | 0 <= k < 2 && j in t && t[j].hash == us[k].hash ensures MovedBy(us, j, k, 2) {
      assert us[1 - k].id == j;
    }
  }

  /** Of a swap that two batches share both rows fail. */
  lemma SwapAcrossBatchesFails(t: Table, us: seq<Update>, failed: seq<nat>)
    requires |us| == 2 && Swap(t, us[0], us[1]) && FailedExactly(t, us, 2, failed, 1)
    ensures us[0].id in failed && us[1].id in failed
  {
    AloneFails(t, us, failed, 0, us[1].id);
    AloneFails(t, us, failed, 1, us[0].id);
  }

  /** A batch of one row fails when another row still holds the target. */
  lemma AloneFails(t: Table, us: seq<Update>, failed: seq<nat>, k: nat, j: nat)
    requires k < |us| && FailedExactly(t, us, |us|, failed, 1)
    requires j in t && j != us[k].id && t[j].hash == us[k].hash && Stays(us, k, failed, j)
    ensures us[k].id in failed
  {
    assert Start(k, 1) == k && !Within(us, k, 1, j);
    assert Fails(t, us, 1, k, failed);
  }

  /** Nor does a batch clear its swaps when a row that nobody moves holds one of its targets: the rows are
      then tried one by one, and in a swap each row holds what the other needs. */
  lemma SwapBesideBlockedRowFails(t: Table, us: seq<Update>, failed: seq<nat>, j: nat)
    requires |us| == 3 && DistinctIds(us) && Swap(t, us[0], us[1]) && FailedExactly(t, us, 3, failed, 3)
    requires j in t && t[j].hash == us[2].hash && !Planned(us, j)
    ensures us[0].id in failed && us[1].id in failed && us[2].id in failed
  {
    OutsiderBlocks(t, us, 3, failed, 2, j);
    assert Start(0, 3) == Start(1, 3) == 0;
    SwapFails(t, us, 3, failed, 0, 1);
  }

  /** A holder that no update moves blocks its update and gets the first batch refused. */
  lemma OutsiderBlocks(t: Table, us: seq<Update>, step: nat, failed: seq<nat>, k: nat, j: nat)
    requires k < |us| && k < step && j in t && t[j].hash == us[k].hash && !Planned(us, j)
    requires FailedExactly(t, us, |us|, failed, step)
    ensures BatchRefused(t, us, step, 0, failed) && us[k].id in failed
  {
    assert Stays(us, 0, failed, j) && Stays(us, k, failed, j) && !Within(us, 0, step, j);
    assert Planned(us, us[k].id);
    assert Start(k, step) == 0;
    assert Fails(t, us, step, k, failed);
  }

  function SomeRow(url: string, hash: string): Row {
    Row(url, hash, None, "s", "ok")
  }

  /** Such tables and plans exist: rows 1 and 2 swap their hashes, row 3 wants the one of row 9. */
  lemma SwapBesideBlockedRow(a: string, b: string, c: string, d: string) returns (t: Table, us: seq<Update>)
    requires IsDigest(a) && IsDigest(b) && IsDigest(c) && a != b && a != c && a != d && b != c && b != d && c != d
    ensures Unique(t) && Plannable(us) && forall u :: u in us ==> u.id in t
    ensures |us| == 3 && Swap(t, us[0], us[1]) && 9 in t && t[9].hash == us[2].hash && !Planned(us, 9)
  {
    t := map[1 := SomeRow("/a", b), 2 := SomeRow("/b", a), 3 := SomeRow("/c", d), 9 := SomeRow("/x", c)];
    us := [Update(1, a), Update(2, b), Update(3, c)];
  }
}
