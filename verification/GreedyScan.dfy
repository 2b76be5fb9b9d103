/** Greedy grouping of `n` inputs: each input that is still free opens a group and goes once through the
    inputs after it; a free input joins when the group, as it has become, takes it. */
module GreedyScan {

  type Joins = (seq<nat>, nat) -> bool  // whether a group takes an input

  /** A group under construction, and the inputs absorbed so far by any group. */
  datatype Absorbed = Absorbed(members: seq<nat>, used: set<nat>)

  function AbsorbStep(joins: Joins, r: Absorbed, j: nat): Absorbed {
    if j in r.used || !joins(r.members, j) then r else Absorbed(r.members + [j], r.used + {j})
  }

  /** Input `i` with all it absorbs among the inputs after it and below `hi`, in order. */
  function AbsorbTo(joins: Joins, i: nat, hi: nat, used: set<nat>): Absorbed
    requires i < hi
  {
    if hi == i + 1 then Absorbed([i], used)
    else AbsorbStep(joins, AbsorbTo(joins, i, hi - 1, used), hi - 1)
  }

  datatype Grouping = Grouping(groups: seq<seq<nat>>, used: set<nat>)

  /** The scan of `total` inputs after its first `n` rounds. */
  function GroupsTo(joins: Joins, n: nat, total: nat): Grouping
    requires n <= total
  {
    if n == 0 then Grouping([], {}) else
      var g := GroupsTo(joins, n - 1, total);
      if n - 1 in g.used then g else
        var r := AbsorbTo(joins, n - 1, total, g.used);
        Grouping(g.groups + [r.members], r.used)
  }

  function Groups(joins: Joins, total: nat): seq<seq<nat>> {
    GroupsTo(joins, total, total).groups
  }

  ghost predicate Increasing(ms: seq<nat>) {
    forall x, y :: 0 <= x < y < |ms| ==> ms[x] < ms[y]
  }

  /** A group starts with its opener, goes up, and takes only inputs that were free; `used` grows by it. */
  lemma {:induction false} AbsorbFacts(joins: Joins, i: nat, hi: nat, used: set<nat>)
    requires i < hi
    ensures var r := AbsorbTo(joins, i, hi, used);
            && r.members != [] && r.members[0] == i && Increasing(r.members)
            && (forall x :: 0 <= x < |r.members| ==> i <= r.members[x] < hi)
            && (forall x :: 1 <= x < |r.members| ==> r.members[x] !in used)
            && (forall j :: j in r.used <==> j in used || (j in r.members && j != i))
  {
    if hi > i + 1 { AbsorbFacts(joins, i, hi - 1, used); }
  }

  /** The inputs that have a group once `n` rounds are over. */
  ghost predicate Placed(groups: seq<seq<nat>>, j: nat) {
    exists x :: 0 <= x < |groups| && j in groups[x]
  }

  ghost predicate Disjoint(groups: seq<seq<nat>>) {
    forall x, y, j :: 0 <= x < y < |groups| && j in groups[x] ==> j !in groups[y]
  }

  lemma PlacedAppend(groups: seq<seq<nat>>, g: seq<nat>, j: nat)
    ensures Placed(groups + [g], j) <==> Placed(groups, j) || j in g
  {
    if Placed(groups, j) {
      var x :| 0 <= x < |groups| && j in groups[x];
      assert (groups + [g])[x] == groups[x];
    }
    if j in g { assert (groups + [g])[|groups|] == g; }
  }

  /** Groups are ascending lists of inputs. */
  ghost predicate Proper(ms: seq<nat>, total: nat) {
    ms != [] && Increasing(ms) && forall x :: 0 <= x < |ms| ==> ms[x] < total
  }

  /** After `n` rounds: every input below `n` is placed, and of the others exactly the used ones. */
  ghost predicate Rounds(g: Grouping, n: nat, total: nat) {
    && (forall j: nat :: j < n ==> Placed(g.groups, j))
    && (forall j: nat :: j >= n ==> (Placed(g.groups, j) <==> j in g.used))
    && (forall x :: 0 <= x < |g.groups| ==> Proper(g.groups[x], total))
    && Disjoint(g.groups)
  }

  lemma RoundsStep(g: Grouping, n: nat, total: nat, r: Absorbed)
    requires n < total && Rounds(g, n, total) && n !in g.used && Proper(r.members, total) && r.members[0] == n
    requires forall x :: 1 <= x < |r.members| ==> r.members[x] !in g.used
    requires forall j :: j in r.used <==> j in g.used || (j in r.members && j != n)
    ensures Rounds(Grouping(g.groups + [r.members], r.used), n + 1, total)
  {
    forall j ensures Placed(g.groups + [r.members], j) <==> Placed(g.groups, j) || j in r.members {
      PlacedAppend(g.groups, r.members, j);
    }
    forall x, j | 0 <= x < |g.groups| && j in g.groups[x] ensures j !in r.members {
      assert Placed(g.groups, j);
    }
  }

  lemma {:induction false} GroupsFacts(joins: Joins, n: nat, total: nat)
    requires n <= total
    ensures Rounds(GroupsTo(joins, n, total), n, total)
  {
    if n > 0 {
      GroupsFacts(joins, n - 1, total);
      var g := GroupsTo(joins, n - 1, total);
      if n - 1 !in g.used {
        AbsorbFacts(joins, n - 1, total, g.used);
        RoundsStep(g, n - 1, total, AbsorbTo(joins, n - 1, total, g.used));
      }
    }
  }

  /** The members of an ascending group that stand before input `j`. */
  function Below(ms: seq<nat>, j: nat): seq<nat> {
    if ms == [] then [] else if ms[|ms| - 1] >= j then Below(ms[..|ms| - 1], j) else ms
  }

  lemma {:induction false} BelowAll(ms: seq<nat>, j: nat)
    requires forall x :: 0 <= x < |ms| ==> ms[x] < j
    ensures Below(ms, j) == ms
  {
  }

  lemma BelowLast(ms: seq<nat>, last: nat, j: nat)
    requires last >= j
    ensures Below(ms + [last], j) == Below(ms, j)
  {
    assert (ms + [last])[..|ms|] == ms;
  }

  /** The group that opener `i` has become among the inputs below `hi`: it took each member as it stood then, and
      refused, as it stood then, every other input that was free. */
  ghost predicate Greedy(joins: Joins, i: nat, hi: nat, used: set<nat>, ms: seq<nat>) {
    && (forall y :: 1 <= y < |ms| ==> joins(ms[..y], ms[y]))
    && forall j: nat :: i < j < hi && j !in used && j !in ms ==> !joins(Below(ms, j), j)
  }

  lemma {:induction false} AbsorbIsGreedy(joins: Joins, i: nat, hi: nat, used: set<nat>)
    requires i < hi
    ensures Greedy(joins, i, hi, used, AbsorbTo(joins, i, hi, used).members)
  {
    if hi > i + 1 {
      var r, j := AbsorbTo(joins, i, hi - 1, used), hi - 1;
      AbsorbIsGreedy(joins, i, j, used);
      AbsorbFacts(joins, i, j, used);
      GreedyNext(joins, i, j, used, r);
    }
  }

  lemma GreedyNext(joins: Joins, i: nat, j: nat, used: set<nat>, r: Absorbed)
    requires i < j && Greedy(joins, i, j, used, r.members) && (forall x :: 0 <= x < |r.members| ==> r.members[x] < j)
    requires j in r.used <==> j in used || j in r.members
    ensures Greedy(joins, i, j + 1, used, AbsorbStep(joins, r, j).members)
  {
    BelowAll(r.members, j);
    if j in r.used || !joins(r.members, j) {
      RefusedStep(joins, i, j, used, r.members);
    } else {
      TakenStep(joins, i, j, used, r.members);
    }
  }

  lemma RefusedStep(joins: Joins, i: nat, j: nat, used: set<nat>, ms: seq<nat>)
    requires i < j && Greedy(joins, i, j, used, ms) && (j in used || j in ms || !joins(Below(ms, j), j))
    ensures Greedy(joins, i, j + 1, used, ms)
  {
  }

  lemma TakenStep(joins: Joins, i: nat, j: nat, used: set<nat>, ms: seq<nat>)
    requires i < j && Greedy(joins, i, j, used, ms) && joins(ms, j)
    ensures Greedy(joins, i, j + 1, used, ms + [j])
  {
    var after := ms + [j];
    forall y | 1 <= y < |after| ensures joins(after[..y], after[y]) {
      assert after[..y] == ms[..y];
    }
    forall k: nat | i < k < j + 1 && k !in used && k !in after ensures !joins(Below(after, k), k) {
      BelowLast(ms, j, k);
    }
  }

  /** Inputs that the groups before group `x` have taken. */
  ghost predicate TakenBefore(groups: seq<seq<nat>>, x: nat, j: nat) {
    exists y :: 0 <= y < x && y < |groups| && j in groups[y]
  }

  /** Each group against the inputs that the groups before it have left. */
  ghost predicate AllGreedy(joins: Joins, groups: seq<seq<nat>>, total: nat) {
    forall x :: 0 <= x < |groups| ==> groups[x] != [] && GreedyAt(joins, groups, x, total)
  }

  ghost predicate GreedyAt(joins: Joins, groups: seq<seq<nat>>, x: nat, total: nat)
    requires x < |groups| && groups[x] != []
  {
    var ms := groups[x];
    && (forall j: nat :: j < ms[0] ==> TakenBefore(groups, x, j))
    && (forall y :: 1 <= y < |ms| ==> joins(ms[..y], ms[y]))
    && forall j: nat :: ms[0] < j < total && j !in ms && !TakenBefore(groups, x, j) ==> !joins(Below(ms, j), j)
  }

  lemma GreedyStays(joins: Joins, groups: seq<seq<nat>>, g: seq<nat>, x: nat, total: nat)
    requires x < |groups| && groups[x] != [] && GreedyAt(joins, groups, x, total)
    ensures GreedyAt(joins, groups + [g], x, total)
  {
    forall j: nat ensures TakenBefore(groups + [g], x, j) <==> TakenBefore(groups, x, j) {
      if y :| 0 <= y < x && y < |groups + [g]| && j in (groups + [g])[y] { assert j in groups[y]; }
      if y :| 0 <= y < x && y < |groups| && j in groups[y] { assert j in (groups + [g])[y]; }
    }
  }

  lemma GreedyAppend(joins: Joins, g: Grouping, n: nat, total: nat)
    requires n < total && Rounds(g, n, total) && AllGreedy(joins, g.groups, total) && n !in g.used
    ensures AllGreedy(joins, g.groups + [AbsorbTo(joins, n, total, g.used).members], total)
  {
    var ms := AbsorbTo(joins, n, total, g.used).members;
    var after := g.groups + [ms];
    AbsorbFacts(joins, n, total, g.used);
    AbsorbIsGreedy(joins, n, total, g.used);
    forall x | 0 <= x < |after| ensures after[x] != [] && GreedyAt(joins, after, x, total) {
      if x < |g.groups| {
        GreedyStays(joins, g.groups, ms, x, total);
      } else {
        forall j: nat ensures TakenBefore(after, x, j) <==> Placed(g.groups, j) {
          TakenIsPlaced(g.groups, ms, j);
        }
      }
    }
  }

  lemma TakenIsPlaced(groups: seq<seq<nat>>, g: seq<nat>, j: nat)
    ensures TakenBefore(groups + [g], |groups|, j) <==> Placed(groups, j)
  {
    if y :| 0 <= y < |groups| && j in groups[y] { assert j in (groups + [g])[y]; }
    if y :| 0 <= y < |groups| && j in (groups + [g])[y] { assert j in groups[y]; }
  }

  lemma {:induction false} GroupsToGreedy(joins: Joins, n: nat, total: nat)
    requires n <= total
    ensures AllGreedy(joins, GroupsTo(joins, n, total).groups, total)
  {
    if n > 0 {
      var g := GroupsTo(joins, n - 1, total);
      GroupsToGreedy(joins, n - 1, total);
      GroupsFacts(joins, n - 1, total);
      if n - 1 !in g.used { GreedyAppend(joins, g, n - 1, total); }
    }
  }

  /** The scan is greedy: each group opens with the first input that is left, took each of its members as it stood
      then, and refused, as it stood then, every later input that no group before it had taken. */
  lemma GroupsAreGreedy(joins: Joins, total: nat)
    ensures AllGreedy(joins, Groups(joins, total), total)
  {
    GroupsToGreedy(joins, total, total);
  }

  lemma FewGroups(joins: Joins, total: nat)
    requires total <= 1
    ensures Groups(joins, total) == if total == 0 then [] else [[0]]
  {
    if total == 1 { assert GroupsTo(joins, 0, 1) == Grouping([], {}); }
  }

  /** Every input is in exactly one group. */
  lemma GroupsPartition(joins: Joins, total: nat)
    ensures forall j: nat :: j < total <==> Placed(Groups(joins, total), j)
    ensures Disjoint(Groups(joins, total))
    ensures forall x :: 0 <= x < |Groups(joins, total)| ==> Proper(Groups(joins, total)[x], total)
  {
    GroupsFacts(joins, total, total);
    forall j: nat | Placed(Groups(joins, total), j) ensures j < total {
      var x :| 0 <= x < |Groups(joins, total)| && j in Groups(joins, total)[x];
    }
  }

  /** Two rules that agree on proper groups build the same groups. */
  lemma {:induction false} SameAbsorbed(f: Joins, g: Joins, i: nat, hi: nat, total: nat, used: set<nat>)
    requires i < hi <= total
    requires forall ms, j: nat :: Proper(ms, total) && j < total ==> f(ms, j) == g(ms, j)
    ensures AbsorbTo(f, i, hi, used) == AbsorbTo(g, i, hi, used)
  {
    if hi > i + 1 {
      SameAbsorbed(f, g, i, hi - 1, total, used);
      AbsorbFacts(f, i, hi - 1, used);
      assert Proper(AbsorbTo(f, i, hi - 1, used).members, total);
    }
  }

  lemma {:induction false} SameGroups(f: Joins, g: Joins, n: nat, total: nat)
    requires n <= total
    requires forall ms, j: nat :: Proper(ms, total) && j < total ==> f(ms, j) == g(ms, j)
    ensures GroupsTo(f, n, total) == GroupsTo(g, n, total)
  {
    if n > 0 {
      SameGroups(f, g, n - 1, total);
      SameAbsorbed(f, g, n - 1, total, total, GroupsTo(f, n - 1, total).used);
    }
  }

  /** A stretch of inputs that the opener's group never takes changes nothing. */
  lemma {:induction false} AbsorbSkip(joins: Joins, i: nat, lo: nat, hi: nat, used: set<nat>)
    requires i < lo <= hi
    requires forall ms, j: nat :: lo <= j < hi && ms != [] && ms[0] == i && Proper(ms, hi) ==> !joins(ms, j)
    ensures AbsorbTo(joins, i, hi, used) == AbsorbTo(joins, i, lo, used)
  {
    if lo < hi {
      AbsorbSkip(joins, i, lo, hi - 1, used);
      AbsorbFacts(joins, i, hi - 1, used);
      assert Proper(AbsorbTo(joins, i, hi - 1, used).members, hi);
    }
  }
}
