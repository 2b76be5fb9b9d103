/** The `news_item` table as the backfill sees it: a unique `url_hash` column, a session with commit and
    rollback, the two-phase batch write and the batch-then-row retry. */
module UrlHashTable {
  import opened Prelude
  import Decimals

  datatype Row = Row(url: string, hash: string, effectiveAt: Option<int>, source: string, ingestStatus: string)

  type Table = map<nat, Row>

  datatype Update = Update(id: nat, hash: string)

  /** The unique index on `url_hash`. */
  ghost predicate Unique(t: Table) {
    forall i, j :: i in t && j in t && t[i].hash == t[j].hash ==> i == j
  }

  /** The text of a SHA-256 digest. */
  predicate IsDigest(h: string) {
    |h| == 64 && forall i :: 0 <= i < |h| ==> ('0' <= h[i] <= '9' || 'a' <= h[i] <= 'f')
  }

  const TEMP_PREFIX := "__backfill__"

  function TempHash(token: string, id: nat): string {
    TEMP_PREFIX + token + "__" + Decimals.ToText(id)
  }

  lemma TempHashInjective(token: string, m: nat, n: nat)
    requires TempHash(token, m) == TempHash(token, n)
    ensures m == n
  {
    var p := TEMP_PREFIX + token + "__";
    assert TempHash(token, m)[|p|..] == Decimals.ToText(m);
    assert TempHash(token, n)[|p|..] == Decimals.ToText(n);
    Decimals.TextInjective(m, n);
  }

  lemma TempHashIsNoDigest(token: string, n: nat)
    ensures !IsDigest(TempHash(token, n))
  {
    assert TempHash(token, n)[0] == '_';
  }

  /** No row holds a temporary value of this run. */
  ghost predicate NoTemp(t: Table, token: string) {
    forall i, n: nat :: i in t ==> t[i].hash != TempHash(token, n)
  }

  ghost predicate DistinctIds(us: seq<Update>) {
    forall i, j :: 0 <= i < j < |us| ==> us[i].id != us[j].id
  }

  ghost predicate DistinctTargets(us: seq<Update>) {
    forall i, j :: 0 <= i < j < |us| ==> us[i].hash != us[j].hash
  }

  /** What a plan promises about its updates: no id and no target twice, and every target a digest. */
  ghost predicate Plannable(us: seq<Update>) {
    DistinctIds(us) && DistinctTargets(us) && forall u :: u in us ==> IsDigest(u.hash)
  }

  ghost predicate Planned(us: seq<Update>, id: nat) {
    exists k :: 0 <= k < |us| && us[k].id == id
  }

  /** The table with the hashes of `m` written over its own. */
  ghost function Overlay(t: Table, m: map<nat, string>): Table {
    map id | id in t :: if id in m then t[id].(hash := m[id]) else t[id]
  }

  ghost function Targets(us: seq<Update>): map<nat, string> {
    if us == [] then map[] else Targets(us[..|us| - 1])[us[|us| - 1].id := us[|us| - 1].hash]
  }

  ghost function Temps(us: seq<Update>, token: string): map<nat, string> {
    if us == [] then map[] else
      Temps(us[..|us| - 1], token)[us[|us| - 1].id := TempHash(token, us[|us| - 1].id)]
  }

  lemma {:induction false} TargetsDomain(us: seq<Update>)
    ensures forall id :: id in Targets(us) <==> Planned(us, id)
  {
    if us != [] {
      var n := |us| - 1;
      TargetsDomain(us[..n]);
      forall id ensures id in Targets(us) <==> Planned(us, id) {
        PlannedPrefix(us, n, id);
      }
    }
  }

  lemma {:induction false} TargetAt(us: seq<Update>, k: nat)
    requires DistinctIds(us) && k < |us|
    ensures us[k].id in Targets(us) && Targets(us)[us[k].id] == us[k].hash
  {
    var n := |us| - 1;
    if k < n {
      TargetAt(us[..n], k);
      assert us[..n][k] == us[k];
    }
  }

  lemma {:induction false} TempsFacts(us: seq<Update>, token: string)
    ensures forall id :: id in Temps(us, token) <==> Planned(us, id)
    ensures forall id :: id in Temps(us, token) ==> Temps(us, token)[id] == TempHash(token, id)
  {
    if us != [] {
      var n := |us| - 1;
      TempsFacts(us[..n], token);
      forall id ensures id in Temps(us, token) <==> Planned(us, id) {
        PlannedPrefix(us, n, id);
      }
    }
  }

  lemma PlannedPrefix(us: seq<Update>, n: nat, id: nat)
    requires n < |us|
    ensures Planned(us[..n + 1], id) <==> Planned(us[..n], id) || us[n].id == id
    ensures n + 1 == |us| ==> us[..n + 1] == us
  {
    if Planned(us[..n + 1], id) && us[n].id != id {
      var k :| 0 <= k < n + 1 && us[..n + 1][k].id == id;
      assert us[..n][k].id == id;
    }
    if Planned(us[..n], id) {
      var k :| 0 <= k < n && us[..n][k].id == id;
      assert us[..n + 1][k].id == id;
    }
    assert us[..n + 1][n] == us[n];
  }

  /** The hash that the batch leaves on row `id`. */
  lemma TargetOf(us: seq<Update>, id: nat) returns (k: nat)
    requires DistinctIds(us) && id in Targets(us)
    ensures k < |us| && us[k].id == id && Targets(us)[id] == us[k].hash
  {
    TargetsDomain(us);
    k :| 0 <= k < |us| && us[k].id == id;
    TargetAt(us, k);
  }

  /** Some row outside the batch holds `h`. */
  ghost predicate HeldOutside(t: Table, batch: seq<Update>, h: string) {
    exists j :: j in t && t[j].hash == h && !Planned(batch, j)
  }

  /** No row outside the batch holds one of the targets that the batch will write. */
  ghost predicate Free(t: Table, batch: seq<Update>) {
    forall k :: 0 <= k < |batch| && batch[k].id in t ==> !HeldOutside(t, batch, batch[k].hash)
  }

  /** The unique index refuses to put `h` on row `id`. */
  ghost predicate Refused(t: Table, id: nat, h: string) {
    id in t && exists j :: j in t && j != id && t[j].hash == h
  }

  lemma FreeKeepsUnique(t: Table, batch: seq<Update>)
    requires Unique(t) && Plannable(batch) && Free(t, batch)
    ensures Unique(Overlay(t, Targets(batch)))
  {
    var m := Targets(batch);
    var r := Overlay(t, m);
    TargetsDomain(batch);
    forall k, j | 0 <= k < |batch| && batch[k].id in t && j in t && !Planned(batch, j)
      ensures t[j].hash != batch[k].hash
    {
      assert !HeldOutside(t, batch, batch[k].hash);
    }
    forall i, j | i in r && j in r && r[i].hash == r[j].hash ensures i == j {
      if i in m { var a := TargetOf(batch, i); }
      if j in m { var b := TargetOf(batch, j); }
    }
  }

  lemma TargetsKeepNoTemp(t: Table, us: seq<Update>, token: string)
    requires NoTemp(t, token) && Plannable(us)
    ensures NoTemp(Overlay(t, Targets(us)), token)
  {
    var m := Targets(us);
    var r := Overlay(t, m);
    forall i, n: nat | i in r ensures r[i].hash != TempHash(token, n) {
      TempHashIsNoDigest(token, n);
      if i in m { var a := TargetOf(us, i); assert us[a] in us; }
    }
  }

  /** A database session: statements change `working`; `committed` is what other readers see. */
  class Session {
    var committed: Table
    var working: Table
    ghost var history: seq<Table>  // every state committed so far, oldest first

    constructor (t: Table)
      ensures committed == t && working == t && history == []
    {
      committed, working := t, t;
      history := [];
    }

    /** UPDATE ... SET url_hash WHERE id: refused, with no effect, when another row holds the value. */
    method UpdateHash(id: nat, hash: string) returns (ok: bool)
      modifies this`working
      ensures ok <==> !Refused(old(working), id, hash)
      ensures working == if ok then Overlay(old(working), map[id := hash]) else old(working)
    {
      if id !in working {
        assert Overlay(working, map[id := hash]) == working;
        return true;
      }
      ok := !exists j :: j in working && j != id && working[j].hash == hash;
      if ok {
        working := working[id := working[id].(hash := hash)];
      }
    }

    method Commit()
      modifies this
      ensures working == old(working) == committed
      ensures history == old(history) + [committed]
    {
      committed := working;
      history := history + [committed];
    }

    method Rollback()
      modifies this`working
      ensures working == committed
    {
      working := committed;
    }
  }

  /** First phase: all rows of the batch to their temporary values, which are free. */
  method MoveAside(s: Session, batch: seq<Update>, token: string)
    requires s.working == s.committed && NoTemp(s.committed, token) && DistinctIds(batch)
    modifies s`working
    ensures s.working == TempStage(s.committed, batch, |batch|, token)
  {
    assert TempStage(s.committed, batch, 0, token) == s.committed;
    var k := 0;
    while k < |batch|
      invariant 0 <= k <= |batch| && s.working == TempStage(s.committed, batch, k, token)
    {
      TempStep(s.committed, batch, k, token);
      var ok := s.UpdateHash(batch[k].id, TempHash(token, batch[k].id));
      k := k + 1;
    }
  }

  /** Second phase: the targets, up to the first one that a row outside the batch holds. */
  method WriteTargets(s: Session, batch: seq<Update>, token: string) returns (ok: bool)
    requires s.working == TargetStage(s.committed, batch, 0, token) && Plannable(batch)
    modifies s`working
    ensures ok <==> Free(s.committed, batch)
    ensures ok ==> s.working == TargetStage(s.committed, batch, |batch|, token)
  {
    var k := 0;
    while k < |batch|
      invariant 0 <= k <= |batch| && s.working == TargetStage(s.committed, batch, k, token)
      invariant forall i :: 0 <= i < k && batch[i].id in s.committed ==> !HeldOutside(s.committed, batch, batch[i].hash)
    {
      TargetStep(s.committed, batch, k, token);
      ok := s.UpdateHash(batch[k].id, batch[k].hash);
      if !ok {
        return;
      }
      k := k + 1;
    }
    ok := true;
  }

  /** Two-phase write of one batch: all rows to temporary values, then to their targets, then commit. It
      commits exactly when no row outside the batch holds one of the targets; a refused statement leaves
      the committed table as it was. */
  method WriteBatch(s: Session, batch: seq<Update>, token: string) returns (ok: bool)
    requires s.working == s.committed
    requires Unique(s.committed) && NoTemp(s.committed, token) && Plannable(batch)
    modifies s
    ensures ok <==> Free(old(s.committed), batch)
    ensures ok ==> s.working == s.committed == Overlay(old(s.committed), Targets(batch))
    ensures !ok ==> s.committed == old(s.committed)
    ensures s.history == old(s.history) + if ok then [s.committed] else []
  {
    MoveAside(s, batch, token);
    StagesMeet(s.committed, batch, token);
    ok := WriteTargets(s, batch, token);
    if ok {
      s.Commit();
    }
  }

  /** The working table after `k` statements of the first phase. */
  ghost function TempStage(t: Table, batch: seq<Update>, k: nat, token: string): Table
    requires k <= |batch|
  {
    Overlay(t, Temps(batch[..k], token))
  }

  /** The working table after the first phase and `k` statements of the second. */
  ghost function TargetStage(t: Table, batch: seq<Update>, k: nat, token: string): Table
    requires k <= |batch|
  {
    Overlay(t, Temps(batch, token) + Targets(batch[..k]))
  }

  lemma StagesMeet(t: Table, batch: seq<Update>, token: string)
    ensures TempStage(t, batch, |batch|, token) == TargetStage(t, batch, 0, token)
    ensures TargetStage(t, batch, |batch|, token) == Overlay(t, Targets(batch))
  {
    assert batch[..|batch|] == batch;
    var temps, targets := Temps(batch, token), Targets(batch);
    assert temps + Targets(batch[..0]) == temps;
    assert temps.Keys == targets.Keys by {
      TempsFacts(batch, token);
      TargetsDomain(batch);
    }
    Covered(temps, targets);
  }

  lemma Covered(m: map<nat, string>, n: map<nat, string>)
    requires m.Keys == n.Keys
    ensures m + n == n
  {
  }

  lemma TempStep(t: Table, batch: seq<Update>, k: nat, token: string)
    requires NoTemp(t, token) && DistinctIds(batch) && k < |batch|
    ensures var w := TempStage(t, batch, k, token);
            var v := TempHash(token, batch[k].id);
            !Refused(w, batch[k].id, v)
            && Overlay(w, map[batch[k].id := v]) == TempStage(t, batch, k + 1, token)
  {
    var m := Temps(batch[..k], token);
    var w := Overlay(t, m);
    var v := TempHash(token, batch[k].id);
    TempsFacts(batch[..k], token);
    forall j | j in w && j != batch[k].id ensures w[j].hash != v {
      if j in m && TempHash(token, j) == v { TempHashInjective(token, j, batch[k].id); }
    }
    assert batch[..k + 1][..k] == batch[..k];
    assert Temps(batch[..k + 1], token) == m[batch[k].id := v];
  }

  lemma TargetStep(t: Table, batch: seq<Update>, k: nat, token: string)
    requires Plannable(batch) && k < |batch|
    ensures Refused(TargetStage(t, batch, k, token), batch[k].id, batch[k].hash)
      <==> batch[k].id in t && HeldOutside(t, batch, batch[k].hash)
    ensures Overlay(TargetStage(t, batch, k, token), map[batch[k].id := batch[k].hash])
      == TargetStage(t, batch, k + 1, token)
  {
    TargetAdvance(t, batch, k, token);
    var h := batch[k].hash;
    var w := TargetStage(t, batch, k, token);
    assert Planned(batch, batch[k].id);
    if Refused(w, batch[k].id, h) {
      var j :| j in w && j != batch[k].id && w[j].hash == h;
      TargetStageAt(t, batch, k, token, j);
      assert HeldOutside(t, batch, h);
    }
    if batch[k].id in t && HeldOutside(t, batch, h) {
      var j :| j in t && t[j].hash == h && !Planned(batch, j);
      TargetStageAt(t, batch, k, token, j);
      assert w[j].hash == h;
    }
  }

  lemma TargetAdvance(t: Table, batch: seq<Update>, k: nat, token: string)
    requires k < |batch|
    ensures Overlay(TargetStage(t, batch, k, token), map[batch[k].id := batch[k].hash])
      == TargetStage(t, batch, k + 1, token)
  {
    assert batch[..k + 1][..k] == batch[..k];
    var m := Temps(batch, token);
    var done := Targets(batch[..k]);
    assert Targets(batch[..k + 1]) == done[batch[k].id := batch[k].hash];
    var both: map<nat, string> := m + done;
    assert m + done[batch[k].id := batch[k].hash] == both[batch[k].id := batch[k].hash];
  }

  /** Before statement `k` of the second phase, a row other than `k`'s holds `k`'s target only if it lies
      outside the batch and held that hash from the start. */
  lemma TargetStageAt(t: Table, batch: seq<Update>, k: nat, token: string, j: nat)
    requires Plannable(batch) && k < |batch| && j in t && j != batch[k].id
    ensures TargetStage(t, batch, k, token)[j].hash == batch[k].hash
      <==> t[j].hash == batch[k].hash && !Planned(batch, j)
  {
    var temps, done := Temps(batch, token), Targets(batch[..k]);
    TempsFacts(batch, token);
    TargetsDomain(batch[..k]);
    assert batch[k] in batch;
    if j in done {
      var a := TargetOf(batch[..k], j);
      assert batch[..k][a] == batch[a];
    } else if j in temps {
      TempHashIsNoDigest(token, j);
    } else {
      assert TargetStage(t, batch, k, token)[j] == t[j];
    }
  }
}
