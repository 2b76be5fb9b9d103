/** Sorting by a comparison: the result is an ordered rearrangement. Sets of ids in ascending order. */
module Ordering {

  ghost predicate TotalPreorder<T(!new)>(le: (T, T) -> bool) {
    && (forall x, y :: le(x, y) || le(y, x))
    && (forall x, y, z :: le(x, y) && le(y, z) ==> le(x, z))
  }

  ghost predicate Sorted<T>(le: (T, T) -> bool, s: seq<T>) {
    forall i, j :: 0 <= i < j < |s| ==> le(s[i], s[j])
  }

  ghost predicate Distinct<T>(s: seq<T>) {
    forall i, j :: 0 <= i < j < |s| ==> s[i] != s[j]
  }

  function Insert<T>(le: (T, T) -> bool, x: T, s: seq<T>): seq<T> {
    if s == [] || le(x, s[0]) then [x] + s else [s[0]] + Insert(le, x, s[1..])
  }

  function Sort<T>(le: (T, T) -> bool, s: seq<T>): seq<T> {
    if s == [] then [] else Insert(le, s[0], Sort(le, s[1..]))
  }

  lemma {:induction false} InsertFacts<T(!new)>(le: (T, T) -> bool, x: T, s: seq<T>)
    requires TotalPreorder(le) && Sorted(le, s)
    ensures Sorted(le, Insert(le, x, s))
    ensures multiset(Insert(le, x, s)) == multiset(s) + multiset{x}
  {
    if s == [] || le(x, s[0]) {
      var r := [x] + s;
      forall i, j | 0 <= i < j < |r| ensures le(r[i], r[j]) {
        if i == 0 && j > 1 { assert le(x, s[0]) && le(s[0], s[j - 1]); }
      }
    } else {
      InsertFacts(le, x, s[1..]);
      var t := Insert(le, x, s[1..]);
      assert s == [s[0]] + s[1..];
      forall k | 0 <= k < |t| ensures le(s[0], t[k]) {
        assert t[k] in multiset(t);
        assert t[k] == x || t[k] in s[1..];
      }
    }
  }

  lemma {:induction false} SortFacts<T(!new)>(le: (T, T) -> bool, s: seq<T>)
    requires TotalPreorder(le)
    ensures Sorted(le, Sort(le, s)) && multiset(Sort(le, s)) == multiset(s)
    ensures |Sort(le, s)| == |s|
    ensures forall x :: x in Sort(le, s) <==> x in s
  {
    if s != [] {
      SortFacts(le, s[1..]);
      InsertFacts(le, s[0], Sort(le, s[1..]));
      assert s == [s[0]] + s[1..];
    }
    SameCounts(Sort(le, s), s);
  }

  lemma SameCounts<T>(a: seq<T>, b: seq<T>)
    requires multiset(a) == multiset(b)
    ensures |a| == |b| && forall x :: x in a <==> x in b
  {
    assert |multiset(a)| == |a| && |multiset(b)| == |b|;
    forall x ensures x in a <==> x in b {
      assert x in a <==> x in multiset(a);
    }
  }

  lemma DistinctByCount<T>(s: seq<T>, r: seq<T>)
    requires Distinct(s) && multiset(s) == multiset(r)
    ensures Distinct(r)
  {
    forall i, j | 0 <= i < j < |r| ensures r[i] != r[j] {
      if r[i] == r[j] {
        var x := r[i];
        assert r == r[..i] + [x] + r[i + 1..j] + [x] + r[j + 1..];
        assert multiset(r)[x] >= 2;
        OccursOnce(s, x);
      }
    }
  }

  lemma {:induction false} OccursOnce<T>(s: seq<T>, x: T)
    requires Distinct(s)
    ensures multiset(s)[x] <= 1
  {
    if s != [] {
      assert s == [s[0]] + s[1..];
      OccursOnce(s[1..], x);
      if s[0] == x { assert x !in s[1..]; assert multiset(s[1..])[x] == 0; }
    }
  }

  function Least(s: set<nat>): (m: nat)
    requires s != {}
    ensures m in s && forall y :: y in s ==> m <= y
  {
    assert exists m :: m in s && forall y :: y in s ==> m <= y by {
      var x :| x in s;
      LeastExists(s, x);
    }
    var m :| m in s && forall y :: y in s ==> m <= y;
    m
  }

  lemma {:induction false} LeastExists(s: set<nat>, n: nat)
    requires n in s
    ensures exists m :: m in s && forall y :: y in s ==> m <= y
    decreases n
  {
    if x :| x in s && x < n {
      LeastExists(s, x);
    }
  }

  /** A set of ids in ascending order. */
  function SortedIds(s: set<nat>): seq<nat> {
    if s == {} then [] else [Least(s)] + SortedIds(s - {Least(s)})
  }

  ghost predicate Ascending(ids: seq<nat>) {
    forall i, j :: 0 <= i < j < |ids| ==> ids[i] < ids[j]
  }

  lemma PutFirst(m: nat, rest: seq<nat>)
    requires Ascending(rest) && forall id :: id in rest ==> m < id
    ensures Ascending([m] + rest)
  {
    forall i, j | 0 <= i < j < |rest| + 1 ensures ([m] + rest)[i] < ([m] + rest)[j] {
      if i == 0 { assert rest[j - 1] in rest; }
    }
  }

  lemma {:induction false} SortedIdsFacts(s: set<nat>)
    ensures forall id :: id in SortedIds(s) <==> id in s
    ensures |SortedIds(s)| == |s| && Ascending(SortedIds(s))
  {
    if s != {} {
      var m := Least(s);
      var rest := SortedIds(s - {m});
      SortedIdsFacts(s - {m});
      PutFirst(m, rest);
      assert forall id :: id in [m] + rest <==> id == m || id in rest;
    }
  }
}
