/** The backfill's plan: rows grouped by the hash they should hold, one primary row a group, and an update
    for each primary that does not hold its group's hash yet. */
module BackfillPlan {
  import opened Prelude
  import opened UrlHashTable
  import opened Ordering

  /** The columns that planning reads, with the hash the row should hold ("" for a blank URL). */
  datatype Snapshot = Snapshot(id: nat, url: string, oldHash: string, newHash: string,
                               effectiveAt: Option<int>, source: string)

  datatype ConflictGroup = ConflictGroup(newHash: string, primary: Snapshot, duplicates: seq<Snapshot>)

  datatype Plan = Plan(scanned: nat, kept: nat, skipped: nat,
                       updates: seq<Update>, conflicts: seq<ConflictGroup>)

  /** 9999-12-31T23:59:59.999999 in microseconds of the epoch: where rows without an instant sort. */
  const FAR_FUTURE: int := 253402300799999999

  predicate IsSpace(c: char) {
    c == ' ' || c == '\t' || c == '\n' || c == '\r'
  }

  predicate Blank(url: string) {
    forall i :: 0 <= i < |url| ==> IsSpace(url[i])
  }

  /** A URL is blank if stripping white space leaves nothing of it, the empty one included. */
  lemma BlankIff(url: string)
    ensures Blank(url) <==> forall c :: c in url ==> c in {' ', '\t', '\n', '\r'}
  {
    if Blank(url) {
      forall c | c in url ensures c in {' ', '\t', '\n', '\r'} {
        var i :| 0 <= i < |url| && url[i] == c;
        assert IsSpace(url[i]);
      }
    } else {
      var i :| 0 <= i < |url| && !IsSpace(url[i]);
      assert url[i] in url;
    }
  }

  function Snap(id: nat, row: Row, digest: string -> string): Snapshot {
    Snapshot(id, row.url, row.hash, if Blank(row.url) then "" else digest(row.url), row.effectiveAt, row.source)
  }

  predicate KeyLe(a: Snapshot, b: Snapshot) {
    var x, y := a.effectiveAt.GetOr(FAR_FUTURE), b.effectiveAt.GetOr(FAR_FUTURE);
    x < y || (x == y && a.id <= b.id)
  }

  /** Rows sort by instant, the earlier first, then by id; a row without an instant comes after every row of the
      years that have four digits. */
  lemma KeyOrder(a: Snapshot, b: Snapshot)
    ensures a.effectiveAt.Some? && b.effectiveAt.Some? && a.effectiveAt.value != b.effectiveAt.value ==>
      (KeyLe(a, b) <==> a.effectiveAt.value < b.effectiveAt.value)
    ensures a.effectiveAt == b.effectiveAt ==> (KeyLe(a, b) <==> a.id <= b.id)
    ensures a.effectiveAt.Some? && b.effectiveAt.None? && a.effectiveAt.value < 253402300799999999 ==> KeyLe(a, b) && !KeyLe(b, a)
  {
  }

  /** The row with the least sort key. */
  function Earliest(rows: seq<Snapshot>): (r: Snapshot)
    requires rows != []
    ensures r in rows && forall k :: 0 <= k < |rows| ==> KeyLe(r, rows[k])
  {
    if |rows| == 1 then rows[0] else
      var rest := Earliest(rows[1..]);
      assert forall k :: 1 <= k < |rows| ==> rows[1..][k - 1] == rows[k];
      if KeyLe(rows[0], rest) then rows[0] else rest
  }

  function Holders(rows: seq<Snapshot>, h: string): (r: seq<Snapshot>)
    ensures forall x :: x in r <==> x in rows && x.oldHash == h
  {
    if rows == [] then [] else
      var rest := Holders(rows[1..], h);
      assert rows == [rows[0]] + rows[1..];
      if rows[0].oldHash == h then [rows[0]] + rest else rest
  }

  /** A holder of the hash comes before every row that does not hold it; otherwise the sort key decides. */
  predicate Preferred(a: Snapshot, b: Snapshot, h: string) {
    if (a.oldHash == h) == (b.oldHash == h) then KeyLe(a, b) else a.oldHash == h
  }

  function SelectPrimary(rows: seq<Snapshot>, h: string): (r: Snapshot)
    requires rows != []
    ensures r in rows && forall x :: x in rows ==> Preferred(r, x, h)
  {
    var holders := Holders(rows, h);
    if holders != [] then
      var r := Earliest(holders);
      assert forall x :: x in holders ==> KeyLe(r, x);
      r
    else
      var r := Earliest(rows);
      assert forall x :: x in rows ==> KeyLe(r, x) && x !in holders;
      r
  }

  function Snaps(t: Table, digest: string -> string, ids: seq<nat>): (rows: seq<Snapshot>)
    requires forall id :: id in ids ==> id in t
    ensures |rows| == |ids|
    ensures forall i :: 0 <= i < |ids| ==> ids[i] in t && rows[i] == Snap(ids[i], t[ids[i]], digest)
  {
    if ids == [] then [] else
      assert forall id :: id in ids[1..] ==> id in ids;
      [Snap(ids[0], t[ids[0]], digest)] + Snaps(t, digest, ids[1..])
  }

  /** SELECT ... ORDER BY id. */
  function LoadRows(t: Table, digest: string -> string): (rows: seq<Snapshot>)
    ensures Loaded(t, digest, rows)
  {
    SortedIdsFacts(t.Keys);
    var rows := Snaps(t, digest, SortedIds(t.Keys));
    LoadedFacts(t, digest, SortedIds(t.Keys), rows);
    rows
  }

  /** Every row of the table once, in ascending order of id. */
  ghost predicate Loaded(t: Table, digest: string -> string, rows: seq<Snapshot>) {
    && |rows| == |t|
    && InIdOrder(rows)
    && forall x :: x in rows <==> x.id in t && x == Snap(x.id, t[x.id], digest)
  }

  ghost predicate InIdOrder(rows: seq<Snapshot>) {
    forall i, j :: 0 <= i < j < |rows| ==> rows[i].id < rows[j].id
  }

  lemma LoadedFacts(t: Table, digest: string -> string, ids: seq<nat>, rows: seq<Snapshot>)
    requires (forall id :: id in ids <==> id in t) && |ids| == |t.Keys| && |rows| == |ids|
    requires forall i, j :: 0 <= i < j < |ids| ==> ids[i] < ids[j]
    requires forall i :: 0 <= i < |ids| ==> ids[i] in t && rows[i] == Snap(ids[i], t[ids[i]], digest)
    ensures Loaded(t, digest, rows)
  {
    forall x: Snapshot | x.id in t && x == Snap(x.id, t[x.id], digest) ensures x in rows {
      assert x.id in ids;
      var i :| 0 <= i < |ids| && ids[i] == x.id;
      assert rows[i] == x;
    }
  }

  /** The rows, in order, that should hold `h`. */
  function GroupOf(rows: seq<Snapshot>, h: string): (g: seq<Snapshot>)
    ensures forall x :: x in g <==> x in rows && !Blank(x.url) && x.newHash == h
  {
    if rows == [] then [] else
      var n := |rows| - 1;
      var g := GroupOf(rows[..n], h);
      assert rows == rows[..n] + [rows[n]];
      if !Blank(rows[n].url) && rows[n].newHash == h then g + [rows[n]] else g
  }

  function BlankRows(rows: seq<Snapshot>): nat {
    if rows == [] then 0 else
      BlankRows(rows[..|rows| - 1]) + if Blank(rows[|rows| - 1].url) then 1 else 0
  }

  function GroupUpdates(rows: seq<Snapshot>, hs: seq<string>): seq<Update> {
    if hs == [] then [] else
      var h := hs[|hs| - 1];
      var g := GroupOf(rows, h);
      GroupUpdates(rows, hs[..|hs| - 1])
      + if g != [] && SelectPrimary(g, h).oldHash != h then [Update(SelectPrimary(g, h).id, h)] else []
  }

  function Others(g: seq<Snapshot>, id: nat): (r: seq<Snapshot>)
    ensures forall x :: x in r <==> x in g && x.id != id
  {
    if g == [] then [] else
      var rest := Others(g[1..], id);
      assert g == [g[0]] + g[1..];
      if g[0].id != id then [g[0]] + rest else rest
  }

  function GroupConflicts(rows: seq<Snapshot>, hs: seq<string>): seq<ConflictGroup> {
    if hs == [] then [] else
      var h := hs[|hs| - 1];
      var g := GroupOf(rows, h);
      GroupConflicts(rows, hs[..|hs| - 1])
      + if |g| >= 2 then
          var p := SelectPrimary(g, h);
          [ConflictGroup(h, p, Sort(KeyLe, Others(g, p.id)))]
        else []
  }

  function GroupSizes(rows: seq<Snapshot>, hs: seq<string>): nat {
    if hs == [] then 0 else GroupSizes(rows, hs[..|hs| - 1]) + |GroupOf(rows, hs[|hs| - 1])|
  }

  lemma GroupGrows(rows: seq<Snapshot>, n: nat, h: string)
    requires n < |rows|
    ensures GroupOf(rows[..n + 1], h)
         == GroupOf(rows[..n], h) + if !Blank(rows[n].url) && rows[n].newHash == h then [rows[n]] else []
  {
    assert rows[..n + 1][..n] == rows[..n];
  }

  /** Adding a row to the scan grows the one group it belongs to. */
  lemma {:induction false} GroupSizesGrow(rows: seq<Snapshot>, n: nat, hs: seq<string>)
    requires n < |rows| && Distinct(hs)
    ensures GroupSizes(rows[..n + 1], hs) == GroupSizes(rows[..n], hs)
      + if !Blank(rows[n].url) && rows[n].newHash in hs then 1 else 0
  {
    if hs != [] {
      var m := |hs| - 1;
      GroupSizesGrow(rows, n, hs[..m]);
      GroupGrows(rows, n, hs[m]);
      LastIsNew(hs, m, rows[n].newHash);
    }
  }

  lemma InLast(hs: seq<string>, m: nat, h: string)
    requires |hs| == m + 1
    ensures h in hs <==> h in hs[..m] || h == hs[m]
  {
    assert hs == hs[..m] + [hs[m]];
  }

  lemma LastIsNew(hs: seq<string>, m: nat, h: string)
    requires |hs| == m + 1 && Distinct(hs)
    ensures h in hs <==> h in hs[..m] || h == hs[m]
    ensures Distinct(hs[..m]) && hs[m] !in hs[..m]
  {
    InLast(hs, m, h);
  }

  lemma {:induction false} OthersAll(g: seq<Snapshot>, id: nat)
    requires forall i :: 0 <= i < |g| ==> g[i].id != id
    ensures Others(g, id) == g
  {
    if g != [] { OthersAll(g[1..], id); }
  }

  ghost predicate DistinctRows(g: seq<Snapshot>) {
    forall i, j :: 0 <= i < j < |g| ==> g[i].id != g[j].id
  }

  lemma {:induction false} OthersDistinct(g: seq<Snapshot>, id: nat)
    requires DistinctRows(g)
    ensures Distinct(Others(g, id))
  {
    if g != [] {
      OthersDistinct(g[1..], id);
      assert g[0] !in g[1..];
    }
  }

  lemma {:induction false} OthersSize(g: seq<Snapshot>, p: Snapshot)
    requires DistinctRows(g) && p in g
    ensures |Others(g, p.id)| == |g| - 1
  {
    if g[0] == p { OthersAll(g[1..], p.id); } else { OthersSize(g[1..], p); }
  }

  lemma {:induction false} GroupInOrder(rows: seq<Snapshot>, h: string)
    requires InIdOrder(rows)
    ensures InIdOrder(GroupOf(rows, h))
  {
    if rows != [] {
      var n := |rows| - 1;
      GroupInOrder(rows[..n], h);
      var g := GroupOf(rows[..n], h);
      forall i | 0 <= i < |g| ensures g[i].id < rows[n].id {
        assert g[i] in g;
        assert g[i] in rows[..n];
      }
    }
  }

  ghost function BlankIds(rows: seq<Snapshot>): set<nat> {
    if rows == [] then {} else
      BlankIds(rows[..|rows| - 1]) + if Blank(rows[|rows| - 1].url) then {rows[|rows| - 1].id} else {}
  }

  lemma {:induction false} BlankMember(rows: seq<Snapshot>, id: nat)
    ensures id in BlankIds(rows) <==> exists i :: 0 <= i < |rows| && rows[i].id == id && Blank(rows[i].url)
  {
    if rows != [] {
      var n := |rows| - 1;
      BlankMember(rows[..n], id);
      if i :| 0 <= i < |rows| && rows[i].id == id && Blank(rows[i].url) {
        if i < n { assert rows[..n][i] == rows[i]; }
      }
    }
  }

  lemma {:induction false} BlankCount(rows: seq<Snapshot>)
    requires InIdOrder(rows)
    ensures |BlankIds(rows)| == BlankRows(rows)
  {
    if rows != [] {
      var n := |rows| - 1;
      BlankCount(rows[..n]);
      BlankMember(rows[..n], rows[n].id);
    }
  }

  /** The group of row `id`: the rows with a URL that should hold the same hash. */
  ghost predicate SameGroup(t: Table, digest: string -> string, id: nat, k: nat)
    requires id in t
  {
    k in t && !Blank(t[k].url) && digest(t[k].url) == digest(t[id].url)
  }

  /** Row `id` is its group's first choice: a holder of the hash if there is one, then the earliest. */
  ghost predicate IsPrimary(t: Table, digest: string -> string, id: nat) {
    && id in t && !Blank(t[id].url)
    && forall k :: k in t && SameGroup(t, digest, id, k) ==>
         Preferred(Snap(id, t[id], digest), Snap(k, t[k], digest), digest(t[id].url))
  }

  /** `u` gives a primary row the hash of its URL, which it does not hold yet. */
  ghost predicate Due(t: Table, digest: string -> string, u: Update) {
    IsPrimary(t, digest, u.id) && u.hash == digest(t[u.id].url) && t[u.id].hash != u.hash
  }

  ghost predicate UpdatesFor(t: Table, digest: string -> string, us: seq<Update>) {
    && (forall i, j :: 0 <= i < j < |us| ==> us[i].id < us[j].id)
    && forall u :: u in us <==> Due(t, digest, u)
  }

  /** The group lists every other member once, in sort order, and there is at least one. */
  ghost predicate ConflictFor(t: Table, digest: string -> string, c: ConflictGroup) {
    && IsPrimary(t, digest, c.primary.id)
    && c.primary == Snap(c.primary.id, t[c.primary.id], digest) && c.newHash == c.primary.newHash
    && c.duplicates != [] && Distinct(c.duplicates) && Sorted(KeyLe, c.duplicates)
    && forall x :: x in c.duplicates <==>
         x.id in t && x == Snap(x.id, t[x.id], digest) && SameGroup(t, digest, c.primary.id, x.id)
         && x.id != c.primary.id
  }

  ghost predicate ConflictsFor(t: Table, digest: string -> string, cs: seq<ConflictGroup>) {
    && (forall i, j :: 0 <= i < j < |cs| ==> cs[i].primary.id < cs[j].primary.id)
    && (forall c :: c in cs ==> ConflictFor(t, digest, c))
    && forall id, k :: IsPrimary(t, digest, id) && SameGroup(t, digest, id, k) && k != id ==>
         exists c :: c in cs && c.primary.id == id
  }

  ghost predicate PlanFor(t: Table, digest: string -> string, plan: Plan) {
    && UpdatesFor(t, digest, plan.updates) && ConflictsFor(t, digest, plan.conflicts)
    && plan.scanned == |t| && plan.scanned == plan.skipped + plan.kept + |plan.updates|
    && plan.skipped == |set id | id in t && Blank(t[id].url)|
  }

  function Members(grouped: map<string, seq<Snapshot>>, h: string): seq<Snapshot> {
    if h in grouped then grouped[h] else []
  }

  /** The scan has put the first `n` rows into their groups. */
  ghost predicate Gathered(rows: seq<Snapshot>, n: nat, grouped: map<string, seq<Snapshot>>)
    requires n <= |rows|
  {
    forall h: string :: Members(grouped, h) == GroupOf(rows[..n], h) && (h in grouped ==> grouped[h] != [])
  }

  ghost predicate ListsKeys(order: seq<string>, grouped: map<string, seq<Snapshot>>) {
    Distinct(order) && forall h :: h in order <==> h in grouped
  }

  /** What the scan has collected from the first `n` rows. */
  ghost predicate Scanned(rows: seq<Snapshot>, n: nat, grouped: map<string, seq<Snapshot>>, order: seq<string>)
    requires n <= |rows|
  {
    ListsKeys(order, grouped) && Gathered(rows, n, grouped)
  }

  lemma GatherStep(rows: seq<Snapshot>, n: nat, grouped: map<string, seq<Snapshot>>)
    requires n < |rows| && Gathered(rows, n, grouped) && !Blank(rows[n].url)
    ensures Gathered(rows, n + 1, grouped[rows[n].newHash := Members(grouped, rows[n].newHash) + [rows[n]]])
  {
    var grouped' := grouped[rows[n].newHash := Members(grouped, rows[n].newHash) + [rows[n]]];
    forall h: string ensures Members(grouped', h) == GroupOf(rows[..n + 1], h) && (h in grouped' ==> grouped'[h] != []) {
      GroupGrows(rows, n, h);
      assert Members(grouped, h) == GroupOf(rows[..n], h);
    }
  }

  lemma ScanStep(rows: seq<Snapshot>, n: nat, grouped: map<string, seq<Snapshot>>, order: seq<string>)
    requires n < |rows| && Scanned(rows, n, grouped, order)
    requires !Blank(rows[n].url) && rows[n].newHash in grouped
    ensures Scanned(rows, n + 1, grouped[rows[n].newHash := grouped[rows[n].newHash] + [rows[n]]], order)
    ensures GroupSizes(rows[..n + 1], order) == GroupSizes(rows[..n], order) + 1
  {
    GatherStep(rows, n, grouped);
    GroupSizesGrow(rows, n, order);
  }

  lemma NewGroupSize(rows: seq<Snapshot>, n: nat, order: seq<string>)
    requires n < |rows| && Distinct(order) && !Blank(rows[n].url) && rows[n].newHash !in order
    requires GroupOf(rows[..n], rows[n].newHash) == []
    ensures GroupSizes(rows[..n + 1], order + [rows[n].newHash]) == GroupSizes(rows[..n], order) + 1
  {
    var h := rows[n].newHash;
    assert (order + [h])[..|order|] == order;
    GroupGrows(rows, n, h);
    GroupSizesGrow(rows, n, order);
  }

  lemma NewGroupStep(rows: seq<Snapshot>, n: nat, grouped: map<string, seq<Snapshot>>, order: seq<string>)
    requires n < |rows| && Scanned(rows, n, grouped, order)
    requires !Blank(rows[n].url) && rows[n].newHash !in grouped
    ensures Scanned(rows, n + 1, grouped[rows[n].newHash := [rows[n]]], order + [rows[n].newHash])
    ensures GroupSizes(rows[..n + 1], order + [rows[n].newHash]) == GroupSizes(rows[..n], order) + 1
  {
    var h := rows[n].newHash;
    assert Members(grouped, h) + [rows[n]] == [rows[n]] && GroupOf(rows[..n], h) == [];
    GatherStep(rows, n, grouped);
    NewGroupSize(rows, n, order);
    NewKey(order, grouped, h, [rows[n]]);
  }

  lemma NewKey(order: seq<string>, grouped: map<string, seq<Snapshot>>, h: string, g: seq<Snapshot>)
    requires ListsKeys(order, grouped) && h !in grouped
    ensures ListsKeys(order + [h], grouped[h := g])
  {
    assert h !in order;
  }

  lemma BlankStep(rows: seq<Snapshot>, n: nat, grouped: map<string, seq<Snapshot>>, order: seq<string>)
    requires n < |rows| && Scanned(rows, n, grouped, order) && Blank(rows[n].url)
    ensures Scanned(rows, n + 1, grouped, order) && GroupSizes(rows[..n + 1], order) == GroupSizes(rows[..n], order)
  {
    GroupSizesGrow(rows, n, order);
    forall h: string ensures Members(grouped, h) == GroupOf(rows[..n + 1], h) { GroupGrows(rows, n, h); }
  }

  ghost predicate ScanInv(rows: seq<Snapshot>, n: nat, grouped: map<string, seq<Snapshot>>, order: seq<string>, skipped: nat)
    requires n <= |rows|
  {
    Scanned(rows, n, grouped, order) && skipped == BlankRows(rows[..n]) && n == skipped + GroupSizes(rows[..n], order)
  }

  lemma ScanKeepsInv(rows: seq<Snapshot>, n: nat, grouped: map<string, seq<Snapshot>>, order: seq<string>, skipped: nat)
    requires n < |rows| && ScanInv(rows, n, grouped, order, skipped)
    ensures var h := rows[n].newHash;
            if Blank(rows[n].url) then ScanInv(rows, n + 1, grouped, order, skipped + 1)
            else ScanInv(rows, n + 1, grouped[h := Members(grouped, h) + [rows[n]]],
                         if h in grouped then order else order + [h], skipped)
  {
    var h := rows[n].newHash;
    assert rows[..n + 1][..n] == rows[..n];
    if Blank(rows[n].url) {
      BlankStep(rows, n, grouped, order);
    } else if h in grouped {
      ScanStep(rows, n, grouped, order);
    } else {
      assert Members(grouped, h) + [rows[n]] == [rows[n]];
      NewGroupStep(rows, n, grouped, order);
    }
  }

  method ScanRows(rows: seq<Snapshot>)
    returns (grouped: map<string, seq<Snapshot>>, order: seq<string>, skipped: nat)
    ensures ScanInv(rows, |rows|, grouped, order, skipped)
  {
    grouped, order, skipped := map[], [], 0;
    var n := 0;
    while n < |rows|
      invariant 0 <= n <= |rows| && ScanInv(rows, n, grouped, order, skipped)
    {
      ScanKeepsInv(rows, n, grouped, order, skipped);
      if Blank(rows[n].url) {
        skipped := skipped + 1;
      } else {
        var h := rows[n].newHash;
        if h !in grouped { order := order + [h]; }
        grouped := grouped[h := Members(grouped, h) + [rows[n]]];
      }
      n := n + 1;
    }
  }

  ghost predicate PlanInv(rows: seq<Snapshot>, hs: seq<string>, updates: seq<Update>, conflicts: seq<ConflictGroup>, kept: nat) {
    && updates == GroupUpdates(rows, hs) && conflicts == GroupConflicts(rows, hs)
    && kept + |updates| == GroupSizes(rows, hs)
  }

  /** What one group adds to the plan. */
  ghost predicate GroupPlan(g: seq<Snapshot>, h: string, update: seq<Update>, conflict: seq<ConflictGroup>, kept: nat)
    requires g != []
  {
    var p := SelectPrimary(g, h);
    && update == (if p.oldHash != h then [Update(p.id, h)] else [])
    && conflict == (if |g| >= 2 then [ConflictGroup(h, p, Sort(KeyLe, Others(g, p.id)))] else [])
    && kept + |update| == |g|
  }

  lemma PlanKeepsInv(rows: seq<Snapshot>, order: seq<string>, k: nat, updates: seq<Update>, conflicts: seq<ConflictGroup>,
                     kept: nat, update: seq<Update>, conflict: seq<ConflictGroup>, stay: nat)
    requires k < |order| && PlanInv(rows, order[..k], updates, conflicts, kept)
    requires GroupOf(rows, order[k]) != [] && GroupPlan(GroupOf(rows, order[k]), order[k], update, conflict, stay)
    ensures PlanInv(rows, order[..k + 1], updates + update, conflicts + conflict, kept + stay)
  {
    assert order[..k + 1][..k] == order[..k];
  }

  lemma GroupScanned(rows: seq<Snapshot>, grouped: map<string, seq<Snapshot>>, order: seq<string>, k: nat)
    requires Scanned(rows, |rows|, grouped, order) && k < |order|
    ensures order[k] in grouped && grouped[order[k]] == GroupOf(rows, order[k]) != []
  {
    assert order[k] in order && rows[..|rows|] == rows;
    assert Members(grouped, order[k]) == GroupOf(rows, order[k]);
  }

  lemma NothingPlanned(rows: seq<Snapshot>, order: seq<string>)
    ensures PlanInv(rows, order[..0], [], [], 0)
  {
  }

  lemma AllPlanned(rows: seq<Snapshot>, order: seq<string>, updates: seq<Update>, conflicts: seq<ConflictGroup>, kept: nat)
    requires PlanInv(rows, order[..|order|], updates, conflicts, kept)
    ensures PlanInv(rows, order, updates, conflicts, kept)
  {
    assert order[..|order|] == order;
  }

  method PlanGroups(rows: seq<Snapshot>, grouped: map<string, seq<Snapshot>>, order: seq<string>)
    returns (updates: seq<Update>, conflicts: seq<ConflictGroup>, kept: nat)
    requires Scanned(rows, |rows|, grouped, order) && InIdOrder(rows)
    ensures PlanInv(rows, order, updates, conflicts, kept)
  {
    updates, conflicts, kept := [], [], 0;
    NothingPlanned(rows, order);
    var k := 0;
    while k < |order|
      invariant 0 <= k <= |order| && PlanInv(rows, order[..k], updates, conflicts, kept)
    {
      updates, conflicts, kept := PlanNext(rows, grouped, order, k, updates, conflicts, kept);
      k := k + 1;
    }
    AllPlanned(rows, order, updates, conflicts, kept);
  }

  /** The body of its loop. */
  method PlanNext(ghost rows: seq<Snapshot>, grouped: map<string, seq<Snapshot>>, order: seq<string>, k: nat,
                  updates: seq<Update>, conflicts: seq<ConflictGroup>, kept: nat)
    returns (updatesAfter: seq<Update>, conflictsAfter: seq<ConflictGroup>, keptAfter: nat)
    requires Scanned(rows, |rows|, grouped, order) && InIdOrder(rows)
    requires k < |order| && PlanInv(rows, order[..k], updates, conflicts, kept)
    ensures PlanInv(rows, order[..k + 1], updatesAfter, conflictsAfter, keptAfter)
  {
    GroupScanned(rows, grouped, order, k);
    var update, conflict, stay := PlanGroup(rows, order[k], grouped[order[k]]);
    PlanKeepsInv(rows, order, k, updates, conflicts, kept, update, conflict, stay);
    return updates + update, conflicts + conflict, kept + stay;
  }

  /** One group: a primary that does not hold the hash yet is moved to it, every other row stays. */
  method PlanGroup(ghost rows: seq<Snapshot>, h: string, g: seq<Snapshot>)
    returns (update: seq<Update>, conflict: seq<ConflictGroup>, kept: nat)
    requires InIdOrder(rows) && g == GroupOf(rows, h) && g != []
    ensures GroupPlan(g, h, update, conflict, kept)
  {
    var primary := if |g| == 1 then g[0] else SelectPrimary(g, h);
    DuplicatesSize(rows, h);
    update, conflict, kept := [], [], 0;
    if |g| > 1 {
      var duplicates := Sort(KeyLe, Others(g, primary.id));
      conflict := [ConflictGroup(h, primary, duplicates)];
      kept := |duplicates|;
    }
    if primary.oldHash != h {
      update := [Update(primary.id, h)];
    } else {
      kept := kept + 1;
    }
  }

  lemma DuplicatesSize(rows: seq<Snapshot>, h: string)
    requires InIdOrder(rows) && GroupOf(rows, h) != []
    ensures var g := GroupOf(rows, h);
            |Sort(KeyLe, Others(g, SelectPrimary(g, h).id))| == |g| - 1
  {
    var g := GroupOf(rows, h);
    GroupInOrder(rows, h);
    OthersSize(g, SelectPrimary(g, h));
    SortFacts(KeyLe, Others(g, SelectPrimary(g, h).id));
  }

  lemma BlanksOfTable(t: Table, digest: string -> string, rows: seq<Snapshot>)
    requires Loaded(t, digest, rows)
    ensures BlankRows(rows) == |set id | id in t && Blank(t[id].url)|
  {
    BlankCount(rows);
    forall id ensures id in BlankIds(rows) <==> id in t && Blank(t[id].url) {
      BlankMember(rows, id);
      if id in t { assert Snap(id, t[id], digest) in rows; }
    }
    assert BlankIds(rows) == set id | id in t && Blank(t[id].url);
  }

  /** `build_plan`: one scan that groups, one pass over the groups that plans. */
  method BuildPlan(t: Table, digest: string -> string) returns (plan: Plan)
    ensures PlanFor(t, digest, plan)
  {
    var rows := LoadRows(t, digest);
    var grouped, order, skipped := ScanRows(rows);
    var updates, conflicts, kept := PlanGroups(rows, grouped, order);
    plan := Plan(|rows|, kept, skipped, Sort(UpdateLe, updates), Sort(ConflictLe, conflicts));
    assert rows[..|rows|] == rows;
    SortedUpdates(t, digest, rows, order);
    SortedConflicts(t, digest, rows, order);
    SortFacts(UpdateLe, updates);
    BlanksOfTable(t, digest, rows);
  }

  predicate UpdateLe(a: Update, b: Update) {
    a.id <= b.id
  }

  predicate ConflictLe(a: ConflictGroup, b: ConflictGroup) {
    a.primary.id <= b.primary.id
  }

  /** `hs` names every group of the table, once. */
  ghost predicate AllGroups(rows: seq<Snapshot>, hs: seq<string>) {
    Distinct(hs) && forall h :: h in hs <==> GroupOf(rows, h) != []
  }

  /** The chosen row of a group is the primary of the table's group, and the only one. */
  lemma PrimaryOfGroup(t: Table, digest: string -> string, rows: seq<Snapshot>, h: string, id: nat)
    requires Loaded(t, digest, rows) && GroupOf(rows, h) != []
    ensures IsPrimary(t, digest, id) && digest(t[id].url) == h <==> id == SelectPrimary(GroupOf(rows, h), h).id
  {
    var g := GroupOf(rows, h);
    var p := SelectPrimary(g, h);
    assert p in rows;
    if IsPrimary(t, digest, id) && digest(t[id].url) == h {
      assert Snap(id, t[id], digest) in g;
      assert SameGroup(t, digest, id, p.id);
    }
    if id == p.id {
      forall k | k in t && SameGroup(t, digest, id, k)
        ensures Preferred(Snap(id, t[id], digest), Snap(k, t[k], digest), digest(t[id].url))
      {
        assert Snap(k, t[k], digest) in g;
      }
    }
  }

  /** `a` comes first by the table's own columns: by instant, no instant counting as the last one of the year 9999,
      then by id. */
  ghost predicate FirstByRow(t: Table, a: nat, b: nat)
    requires a in t && b in t
  {
    var x, y := t[a].effectiveAt.GetOr(253402300799999999), t[b].effectiveAt.GetOr(253402300799999999);
    x < y || (x == y && a <= b)
  }

  /** A group's primary in terms of the table: the row that holds the hash of the group's URL, and if there is none
      the first one. */
  lemma PrimaryMeans(t: Table, digest: string -> string, id: nat)
    requires id in t && !Blank(t[id].url) && Unique(t)
    ensures IsPrimary(t, digest, id) <==>
      || t[id].hash == digest(t[id].url)
      || (forall k :: k in t && SameGroup(t, digest, id, k) ==>
            t[k].hash != digest(t[id].url) && FirstByRow(t, id, k))
  {
    var h := digest(t[id].url);
    forall k | k in t && SameGroup(t, digest, id, k)
      ensures Preferred(Snap(id, t[id], digest), Snap(k, t[k], digest), h) <==>
        if (t[id].hash == h) == (t[k].hash == h) then FirstByRow(t, id, k) else t[id].hash == h
    {
    }
    if t[id].hash == h {
      forall k | k in t && SameGroup(t, digest, id, k) ensures Preferred(Snap(id, t[id], digest), Snap(k, t[k], digest), h) {
        if t[k].hash == h { assert k == id; }
      }
    } else if IsPrimary(t, digest, id) {
      forall k | k in t && SameGroup(t, digest, id, k) ensures t[k].hash != h && FirstByRow(t, id, k) {
        assert Preferred(Snap(id, t[id], digest), Snap(k, t[k], digest), h);
      }
    }
  }

  /** `u` moves the primary of the group of `h`, which does not hold `h` yet. */
  ghost predicate Moves(rows: seq<Snapshot>, h: string, u: Update) {
    var g := GroupOf(rows, h);
    u.hash == h && g != [] && SelectPrimary(g, h).oldHash != h && u.id == SelectPrimary(g, h).id
  }

  lemma LastUpdate(rows: seq<Snapshot>, hs: seq<string>, m: nat, u: Update)
    requires |hs| == m + 1
    ensures u in GroupUpdates(rows, hs) <==> u in GroupUpdates(rows, hs[..m]) || Moves(rows, hs[m], u)
  {
  }

  lemma {:induction false} UpdateFrom(rows: seq<Snapshot>, hs: seq<string>, u: Update)
    ensures u in GroupUpdates(rows, hs) <==> u.hash in hs && Moves(rows, u.hash, u)
  {
    if hs != [] {
      var m := |hs| - 1;
      UpdateFrom(rows, hs[..m], u);
      LastUpdate(rows, hs, m, u);
      InLast(hs, m, u.hash);
    }
  }

  lemma {:induction false} UpdateIdsDiffer(t: Table, digest: string -> string, rows: seq<Snapshot>, hs: seq<string>)
    requires Loaded(t, digest, rows) && Distinct(hs)
    ensures DistinctIds(GroupUpdates(rows, hs))
  {
    if hs != [] {
      var n := |hs| - 1;
      UpdateIdsDiffer(t, digest, rows, hs[..n]);
      var us := GroupUpdates(rows, hs[..n]);
      var g := GroupOf(rows, hs[n]);
      if g != [] {
        var p := SelectPrimary(g, hs[n]);
        forall i | 0 <= i < |us| ensures us[i].id != p.id {
          assert us[i] in us;
          UpdateFrom(rows, hs[..n], us[i]);
          var q := SelectPrimary(GroupOf(rows, us[i].hash), us[i].hash);
          assert q in rows && p in rows && q.newHash == us[i].hash && us[i].hash != hs[n];
        }
      }
    }
  }

  lemma UpdatesInOrder(raw: seq<Update>)
    requires DistinctIds(raw)
    ensures var us := Sort(UpdateLe, raw);
            (forall i, j :: 0 <= i < j < |us| ==> us[i].id < us[j].id) && forall u :: u in us <==> u in raw
  {
    var us := Sort(UpdateLe, raw);
    SortFacts(UpdateLe, raw);
    DistinctByCount(raw, us);
    forall i, j | 0 <= i < j < |us| ensures us[i].id < us[j].id {
      assert us[i] in us && us[j] in us;
      var a :| 0 <= a < |raw| && raw[a] == us[i];
      var b :| 0 <= b < |raw| && raw[b] == us[j];
    }
  }

  lemma UpdateIsDue(t: Table, digest: string -> string, rows: seq<Snapshot>, hs: seq<string>, u: Update)
    requires Loaded(t, digest, rows) && AllGroups(rows, hs)
    ensures u in GroupUpdates(rows, hs) <==> Due(t, digest, u)
  {
    UpdateFrom(rows, hs, u);
    if GroupOf(rows, u.hash) != [] {
      PrimaryOfGroup(t, digest, rows, u.hash, u.id);
      assert SelectPrimary(GroupOf(rows, u.hash), u.hash) in rows;
    }
    if Due(t, digest, u) {
      assert Snap(u.id, t[u.id], digest) in GroupOf(rows, u.hash);
    }
  }

  lemma SortedUpdates(t: Table, digest: string -> string, rows: seq<Snapshot>, hs: seq<string>)
    requires Loaded(t, digest, rows) && AllGroups(rows, hs)
    ensures UpdatesFor(t, digest, Sort(UpdateLe, GroupUpdates(rows, hs)))
  {
    UpdateIdsDiffer(t, digest, rows, hs);
    UpdatesInOrder(GroupUpdates(rows, hs));
    forall u ensures u in GroupUpdates(rows, hs) <==> Due(t, digest, u) { UpdateIsDue(t, digest, rows, hs, u); }
  }

  /** `c` is the report on the group of `h`. */
  ghost predicate Reports(rows: seq<Snapshot>, h: string, c: ConflictGroup) {
    var g := GroupOf(rows, h);
    && |g| >= 2 && c.newHash == h && c.primary == SelectPrimary(g, h)
    && c.duplicates == Sort(KeyLe, Others(g, c.primary.id))
  }

  lemma LastConflict(rows: seq<Snapshot>, hs: seq<string>, m: nat, c: ConflictGroup)
    requires |hs| == m + 1
    ensures c in GroupConflicts(rows, hs) <==> c in GroupConflicts(rows, hs[..m]) || Reports(rows, hs[m], c)
  {
  }

  lemma {:induction false} ConflictFrom(rows: seq<Snapshot>, hs: seq<string>, c: ConflictGroup)
    ensures c in GroupConflicts(rows, hs) <==> c.newHash in hs && Reports(rows, c.newHash, c)
  {
    if hs != [] {
      var m := |hs| - 1;
      ConflictFrom(rows, hs[..m], c);
      LastConflict(rows, hs, m, c);
      InLast(hs, m, c.newHash);
    }
  }

  ghost predicate DistinctPrimaries(cs: seq<ConflictGroup>) {
    forall i, j :: 0 <= i < j < |cs| ==> cs[i].primary.id != cs[j].primary.id
  }

  lemma {:induction false} ConflictIdsDiffer(t: Table, digest: string -> string, rows: seq<Snapshot>, hs: seq<string>)
    requires Loaded(t, digest, rows) && Distinct(hs)
    ensures DistinctPrimaries(GroupConflicts(rows, hs))
  {
    if hs != [] {
      var n := |hs| - 1;
      ConflictIdsDiffer(t, digest, rows, hs[..n]);
      var cs := GroupConflicts(rows, hs[..n]);
      var g := GroupOf(rows, hs[n]);
      if |g| >= 2 {
        var p := SelectPrimary(g, hs[n]);
        forall i | 0 <= i < |cs| ensures cs[i].primary.id != p.id {
          assert cs[i] in cs;
          ConflictFrom(rows, hs[..n], cs[i]);
          assert cs[i].primary in rows && p in rows && cs[i].primary.newHash == cs[i].newHash != hs[n];
        }
      }
    }
  }

  lemma ConflictIsRight(t: Table, digest: string -> string, rows: seq<Snapshot>, h: string)
    requires Loaded(t, digest, rows) && |GroupOf(rows, h)| >= 2
    ensures var g := GroupOf(rows, h);
            var p := SelectPrimary(g, h);
            ConflictFor(t, digest, ConflictGroup(h, p, Sort(KeyLe, Others(g, p.id))))
  {
    var g := GroupOf(rows, h);
    var p := SelectPrimary(g, h);
    var others := Others(g, p.id);
    GroupInOrder(rows, h);
    PrimaryOfGroup(t, digest, rows, h, p.id);
    OthersDistinct(g, p.id);
    SortFacts(KeyLe, others);
    DistinctByCount(others, Sort(KeyLe, others));
    assert p in rows;
  }

  lemma ConflictListed(t: Table, digest: string -> string, rows: seq<Snapshot>, hs: seq<string>, id: nat, k: nat)
    requires Loaded(t, digest, rows) && AllGroups(rows, hs)
    requires IsPrimary(t, digest, id) && SameGroup(t, digest, id, k) && k != id
    ensures exists c :: c in GroupConflicts(rows, hs) && c.primary.id == id
  {
    var h := digest(t[id].url);
    var g := GroupOf(rows, h);
    assert Snap(id, t[id], digest) in g && Snap(k, t[k], digest) in g;
    PrimaryOfGroup(t, digest, rows, h, id);
    var c := ConflictGroup(h, SelectPrimary(g, h), Sort(KeyLe, Others(g, id)));
    ConflictFrom(rows, hs, c);
    assert c in GroupConflicts(rows, hs) && c.primary.id == id;
  }

  lemma ConflictsInOrder(raw: seq<ConflictGroup>)
    requires DistinctPrimaries(raw)
    ensures var cs := Sort(ConflictLe, raw);
            (forall i, j :: 0 <= i < j < |cs| ==> cs[i].primary.id < cs[j].primary.id) && forall c :: c in cs <==> c in raw
  {
    var cs := Sort(ConflictLe, raw);
    SortFacts(ConflictLe, raw);
    DistinctByCount(raw, cs);
    forall i, j | 0 <= i < j < |cs| ensures cs[i].primary.id < cs[j].primary.id {
      assert cs[i] in cs && cs[j] in cs;
      var a :| 0 <= a < |raw| && raw[a] == cs[i];
      var b :| 0 <= b < |raw| && raw[b] == cs[j];
    }
  }

  lemma SortedConflicts(t: Table, digest: string -> string, rows: seq<Snapshot>, hs: seq<string>)
    requires Loaded(t, digest, rows) && AllGroups(rows, hs)
    ensures ConflictsFor(t, digest, Sort(ConflictLe, GroupConflicts(rows, hs)))
  {
    var raw := GroupConflicts(rows, hs);
    var cs := Sort(ConflictLe, raw);
    ConflictIdsDiffer(t, digest, rows, hs);
    ConflictsInOrder(raw);
    forall c | c in cs ensures ConflictFor(t, digest, c) {
      ConflictFrom(rows, hs, c);
      ConflictIsRight(t, digest, rows, c.newHash);
    }
    forall id, k | IsPrimary(t, digest, id) && SameGroup(t, digest, id, k) && k != id
      ensures exists c :: c in cs && c.primary.id == id
    {
      ConflictListed(t, digest, rows, hs, id, k);
    }
  }
}
