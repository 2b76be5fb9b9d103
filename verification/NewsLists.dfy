/** News lists of event cards: order, repeats, merging, and what the first items of a merged list depend on. */
module NewsLists {
  import opened Prelude
  import opened Ordering
  import opened FusionCards

  ghost predicate DistinctNews(ns: seq<News>) {
    forall i, j :: 0 <= i < j < |ns| ==> ns[i].id != ns[j].id
  }

  /** Newest first, no id twice. */
  ghost predicate Descending(ns: seq<News>) {
    forall i, j :: 0 <= i < j < |ns| ==> NewsLe(ns[i], ns[j]) && ns[i].id != ns[j].id
  }

  /** Items of one id are one item, as rows of one table are. */
  ghost predicate Consistent(a: seq<News>, b: seq<News>) {
    forall x, y :: x in a && y in b && x.id == y.id ==> x == y
  }

  /** Newest first, repeats allowed. */
  ghost predicate Ordered(ns: seq<News>) {
    Sorted(NewsLe, ns)
  }

  lemma {:induction false} JoinedFacts(a: seq<News>, b: seq<News>)
    requires DistinctNews(a) && Consistent(a, b) && Consistent(b, b)
    ensures DistinctNews(Joined(a, b))
    ensures forall x :: x in Joined(a, b) <==> x in a || x in b
  {
    if b != [] {
      var n := |b| - 1;
      assert b == b[..n] + [b[n]];
      JoinedFacts(a, b[..n]);
      var rest := Joined(a, b[..n]);
      if HasId(rest, b[n].id) {
        var i :| 0 <= i < |rest| && rest[i].id == b[n].id;
        assert rest[i] in rest;
        assert rest[i] == b[n];
      } else {
        assert forall i :: 0 <= i < |rest| ==> rest[i].id != b[n].id;
      }
    }
  }

  /** The merged list of two cards is the descending union of their lists. */
  lemma MergedFacts(a: seq<News>, b: seq<News>)
    requires DistinctNews(a) && Consistent(a, b) && Consistent(b, b)
    ensures var u := Sort(NewsLe, Joined(a, b));
            Descending(u) && forall x :: x in u <==> x in a || x in b
  {
    var raw := Joined(a, b);
    var u := Sort(NewsLe, raw);
    JoinedFacts(a, b);
    NewsOrder();
    SortFacts(NewsLe, raw);
    assert Distinct(raw) by {
      forall i, j | 0 <= i < j < |raw| ensures raw[i] != raw[j] {
        assert raw[i].id != raw[j].id;
      }
    }
    DistinctByCount(raw, u);
    forall i, j | 0 <= i < j < |u| ensures u[i].id != u[j].id {
      assert u[i] in raw && u[j] in raw;
      var p :| 0 <= p < |raw| && raw[p] == u[i];
      var q :| 0 <= q < |raw| && raw[q] == u[j];
    }
  }

  /** Merging keeps the opener's repeats and adds each new item once. */
  lemma {:induction false} JoinedCount(a: seq<News>, b: seq<News>, x: News)
    requires Consistent(a, a) && Consistent(a, b) && Consistent(b, b)
    ensures multiset(Joined(a, b))[x] == if x in a then multiset(a)[x] else if x in b then 1 else 0
    ensures forall y :: y in Joined(a, b) <==> y in a || y in b
  {
    if b != [] {
      var n := |b| - 1;
      assert b == b[..n] + [b[n]];
      JoinedCount(a, b[..n], x);
      var rest := Joined(a, b[..n]);
      assert HasId(rest, b[n].id) <==> b[n] in rest by {
        if i :| 0 <= i < |rest| && rest[i].id == b[n].id {
          assert rest[i] in rest && (rest[i] in a || rest[i] in b) && rest[i] == b[n];
        }
        if i :| 0 <= i < |rest| && rest[i] == b[n] { assert rest[i].id == b[n].id; }
      }
    }
  }

  lemma MergedOrdered(a: seq<News>, b: seq<News>)
    requires Consistent(a, a) && Consistent(a, b) && Consistent(b, b)
    ensures var u := Sort(NewsLe, Joined(a, b));
            && Ordered(u) && multiset(u) == multiset(Joined(a, b)) && (forall x :: x in u <==> x in a || x in b)
            && Consistent(u, u)
  {
    NewsOrder();
    SortFacts(NewsLe, Joined(a, b));
    forall x ensures x in Joined(a, b) <==> x in a || x in b { JoinedCount(a, b, x); }
  }

  lemma MergedCount(a: seq<News>, b: seq<News>, x: News)
    requires Consistent(a, a) && Consistent(a, b) && Consistent(b, b)
    ensures multiset(Sort(NewsLe, Joined(a, b)))[x] == if x in a then multiset(a)[x] else if x in b then 1 else 0
  {
    MergedOrdered(a, b);
    JoinedCount(a, b, x);
  }

  lemma InByCount(ns: seq<News>, x: News)
    ensures x in ns <==> multiset(ns)[x] > 0
  {
    assert x in ns <==> x in multiset(ns);
  }

  lemma {:induction false} TwiceCounted(ns: seq<News>, i: nat, j: nat)
    requires i < j < |ns| && ns[i] == ns[j]
    ensures multiset(ns)[ns[i]] > 1
  {
    assert ns == ns[..j] + [ns[j]] + ns[j + 1..];
    assert ns[..j][i] == ns[i];
  }

  lemma OnceEach(ns: seq<News>)
    requires Consistent(ns, ns)
    ensures DistinctNews(ns) <==> forall x :: multiset(ns)[x] <= 1
  {
    if DistinctNews(ns) {
      forall x ensures multiset(ns)[x] <= 1 { OccursOnce(ns, x); }
    } else {
      var i, j :| 0 <= i < j < |ns| && ns[i].id == ns[j].id;
      assert ns[i] in ns && ns[j] in ns;
      TwiceCounted(ns, i, j);
    }
  }

  // ---------------------------------------------------------------- the first k items

  /** `v` holds part of `u`, and every item it lacks comes behind its first `k`. */
  ghost predicate LacksOnlyLater(v: seq<News>, u: seq<News>, k: nat) {
    && multiset(v) <= multiset(u)
    && forall x :: multiset(v)[x] < multiset(u)[x] ==> k <= |v| && (k > 0 ==> NewsLe(v[k - 1], x))
  }

  lemma HeadCount(s: seq<News>, x: News)
    requires s != []
    ensures multiset(s)[x] == (if x == s[0] then 1 else 0) + multiset(s[1..])[x]
  {
    assert s == [s[0]] + s[1..];
  }

  lemma SameHead(v: seq<News>, u: seq<News>, k: nat)
    requires Ordered(u) && Ordered(v) && Consistent(u, u) && LacksOnlyLater(v, u, k) && k > 0 && u != []
    ensures v != [] && v[0] == u[0]
  {
    NewsOrder();
    assert multiset(u)[u[0]] > 0;
    if multiset(v)[u[0]] < multiset(u)[u[0]] {
      assert NewsLe(v[0], v[k - 1]) && NewsLe(v[k - 1], u[0]);
    }
    assert v != [];
    assert v[0] in multiset(v) && v[0] in u;
    if u[0] in v { assert NewsLe(v[0], u[0]); }
    assert NewsLe(u[0], v[0]) && NewsLe(v[0], u[0]);
  }

  lemma TailLacks(v: seq<News>, u: seq<News>, k: nat)
    requires v != [] && u != [] && v[0] == u[0] && k > 0 && LacksOnlyLater(v, u, k)
    ensures LacksOnlyLater(v[1..], u[1..], k - 1)
  {
    forall x ensures multiset(v[1..])[x] <= multiset(u[1..])[x]
      ensures multiset(v[1..])[x] < multiset(u[1..])[x] ==> multiset(v)[x] < multiset(u)[x]
    {
      HeadCount(v, x);
      HeadCount(u, x);
    }
  }

  lemma MultisetSize(a: seq<News>, b: seq<News>)
    requires multiset(a) <= multiset(b)
    ensures |a| <= |b|
  {
    assert |a| == |multiset(a)| && |b| == |multiset(b)|;
    assert multiset(b) == multiset(a) + (multiset(b) - multiset(a));
  }

  lemma TailOrdered(s: seq<News>)
    requires s != [] && Ordered(s)
    ensures Ordered(s[1..]) && (Consistent(s, s) ==> Consistent(s[1..], s[1..]))
  {
    assert forall x :: x in s[1..] ==> x in s;
  }

  lemma TakeFromHead(u: seq<News>, v: seq<News>, k: nat)
    requires u != [] && v != [] && u[0] == v[0] && k > 0
    requires Take(v[1..], Some(k - 1)) == Take(u[1..], Some(k - 1))
    ensures Take(v, Some(k)) == Take(u, Some(k))
  {
    assert u == [u[0]] + u[1..] && v == [v[0]] + v[1..];
    assert Take(u, Some(k)) == [u[0]] + Take(u[1..], Some(k - 1));
    assert Take(v, Some(k)) == [v[0]] + Take(v[1..], Some(k - 1));
  }

  /** The hypothesis of `TopItems`, for lists `v` and `u`. */
  ghost predicate PartOf(v: seq<News>, u: seq<News>, k: nat) {
    Ordered(u) && Ordered(v) && Consistent(u, u) && LacksOnlyLater(v, u, k)
  }

  lemma TailsPart(v: seq<News>, u: seq<News>, k: nat)
    requires PartOf(v, u, k) && k > 0 && u != []
    ensures v != [] && v[0] == u[0] && PartOf(v[1..], u[1..], k - 1)
  {
    SameHead(v, u, k);
    TailLacks(v, u, k);
    TailOrdered(u);
    TailOrdered(v);
  }

  /** Then both begin with the same `k` items. */
  lemma {:induction false} TopItems(v: seq<News>, u: seq<News>, k: nat)
    requires PartOf(v, u, k)
    ensures Take(v, Some(k)) == Take(u, Some(k))
    decreases k
  {
    MultisetSize(v, u);
    if k > 0 && u != [] {
      TailsPart(v, u, k);
      TopItems(v[1..], u[1..], k - 1);
      TakeFromHead(u, v, k);
    }
  }

  /** In an ordered list, what comes no later than `x` stands before the first item that comes later. */
  lemma CountBefore(v: seq<News>, w: seq<News>, k: nat, x: News)
    requires Ordered(v) && 0 < k <= |v| && !NewsLe(v[k - 1], x)
    requires multiset(w) <= multiset(v) && forall y :: y in w ==> NewsLe(y, x)
    ensures |w| < k
  {
    NewsOrder();
    assert v == v[..k - 1] + v[k - 1..];
    forall y | y in multiset(w) ensures multiset(w)[y] <= multiset(v[..k - 1])[y] {
      assert y in w;
      forall i | k - 1 <= i < |v| ensures v[i] != y {
        assert NewsLe(v[k - 1], v[i]);
      }
      assert y !in v[k - 1..];
    }
    MultisetSize(w, v[..k - 1]);
  }

  /** If `k` items of an ordered list come no later than `x`, so does its item `k`. */
  lemma EnoughBefore(v: seq<News>, w: seq<News>, k: nat, x: News)
    requires Ordered(v) && |w| >= k > 0 && multiset(w) <= multiset(v) && forall y :: y in w ==> NewsLe(y, x)
    ensures k <= |v| && NewsLe(v[k - 1], x)
  {
    MultisetSize(w, v);
    if !NewsLe(v[k - 1], x) { CountBefore(v, w, k, x); }
  }

  // ---------------------------------------------------------------- cut lists

  /** A list that any card may absorb cut to `k`: its first `k` have no repeats, or they already hold all its
      items. */
  ghost predicate CutSafe(b: seq<News>, k: nat) {
    |b| <= k || DistinctNews(b[..k]) || forall x :: x in b ==> x in b[..k]
  }

  /** `x` comes behind the first `k` items of `v`, of which there are that many. */
  ghost predicate Behind(v: seq<News>, k: nat, x: News)
    requires k > 0
  {
    k <= |v| && NewsLe(v[k - 1], x)
  }

  lemma TakeParts(a: seq<News>, k: nat, x: News)
    ensures multiset(Take(a, Some(k)))[x] <= multiset(a)[x]
    ensures x in Take(a, Some(k)) ==> x in a
  {
    if k < |a| { assert a == a[..k] + a[k..]; }
  }

  /** What a cut drops comes behind the `k` items it keeps. */
  lemma DroppedIsLater(a: seq<News>, k: nat, x: News)
    requires Ordered(a) && multiset(Take(a, Some(k)))[x] < multiset(a)[x]
    ensures k < |a| && forall y :: y in a[..k] ==> NewsLe(y, x)
  {
    assert a == a[..k] + a[k..];
    InByCount(a[k..], x);
    ComeAfter(a, k, x);
  }

  lemma ComeAfter(a: seq<News>, k: nat, x: News)
    requires Ordered(a) && k <= |a| && x in a[k..]
    ensures forall y :: y in a[..k] ==> NewsLe(y, x)
  {
    var j :| 0 <= j < |a| - k && a[k..][j] == x;
    assert a[k + j] == x;
  }

  lemma KeptFirst(p: seq<News>, q: seq<News>)
    requires Consistent(p, p) && Consistent(p, q) && Consistent(q, q)
    ensures multiset(p) <= multiset(Sort(NewsLe, Joined(p, q)))
  {
    MergedOrdered(p, q);
    forall x ensures multiset(p)[x] <= multiset(Joined(p, q))[x] { JoinedCount(p, q, x); }
  }

  lemma DroppedIsBehind(a: seq<News>, k: nat, x: News)
    requires k > 0 && Ordered(a) && multiset(Take(a, Some(k)))[x] < multiset(a)[x]
    ensures Behind(Take(a, Some(k)), k, x)
  {
    DroppedIsLater(a, k, x);
    assert a[..k][k - 1] in a[..k];
  }

  lemma FirstAreBefore(s: seq<News>, k: nat, x: News)
    requires k > 0 && Ordered(s) && Behind(s, k, x)
    ensures multiset(s[..k]) <= multiset(s) && forall y :: y in s[..k] ==> NewsLe(y, x)
  {
    NewsOrder();
    assert s == s[..k] + s[k..];
    forall i | 0 <= i < k ensures NewsLe(s[i], x) {
      if i < k - 1 { assert NewsLe(s[i], s[k - 1]); }
    }
  }

  /** What is behind the first `k` of a list stays behind the first `k` of a cut merge with it. */
  lemma StaysBehind(s: seq<News>, q: seq<News>, k: nat, x: News)
    requires k > 0 && Ordered(s) && Consistent(s, s) && Consistent(s, q) && Consistent(q, q) && Behind(s, k, x)
    ensures Behind(Take(Sort(NewsLe, Joined(s, q)), Some(k)), k, x)
  {
    MergedOrdered(s, q);
    KeptFirst(s, q);
    FirstAreBefore(s, k, x);
    EnoughBefore(Sort(NewsLe, Joined(s, q)), s[..k], k, x);
  }

  /** Merging parts gives a part. */
  lemma PartsMerge(s: seq<News>, q: seq<News>, l: seq<News>, b: seq<News>, n: News)
    requires Consistent(s, s) && Consistent(s, q) && Consistent(q, q)
    requires Consistent(l, l) && Consistent(l, b) && Consistent(b, b)
    requires multiset(s)[n] <= multiset(l)[n] && (n in q ==> n in b)
    ensures multiset(Sort(NewsLe, Joined(s, q)))[n] <= multiset(Sort(NewsLe, Joined(l, b)))[n]
  {
    MergedCount(s, q, n);
    MergedCount(l, b, n);
    InByCount(s, n);
    InByCount(l, n);
  }

  lemma LackedStep(s: seq<News>, q: seq<News>, k: nat, n: News, before: nat, after: nat)
    requires k > 0 && Ordered(s) && Consistent(s, s) && Consistent(s, q) && Consistent(q, q)
    requires multiset(s)[n] < before ==> Behind(s, k, n)
    requires after == before || (after == 1 && n in q)
    ensures var short := Take(Sort(NewsLe, Joined(s, q)), Some(k));
            multiset(short)[n] < after ==> Behind(short, k, n)
  {
    var v := Sort(NewsLe, Joined(s, q));
    MergedOrdered(s, q);
    MergedCount(s, q, n);
    TakeParts(v, k, n);
    InByCount(s, n);
    if multiset(Take(v, Some(k)))[n] < multiset(v)[n] {
      DroppedIsBehind(v, k, n);
    } else if multiset(v)[n] < after {
      StaysBehind(s, q, k, n);
    }
  }

  lemma KeptOnce(b: seq<News>, k: nat, n: News, opener: bool, z: News)
    requires n in b && k < |b| && n !in b[..k] && (opener || CutSafe(b, k))
    ensures opener || multiset(b[..k])[z] <= 1
  {
    if !opener { OccursOnce(b[..k], z); }
  }

  /** An item that comes before another one stands before it. */
  lemma StandsBefore(u: seq<News>, i: nat, y: News)
    requires i < |u| && Ordered(u) && Consistent(u, u) && NewsLe(y, u[i]) && y != u[i]
    ensures y !in u[i..]
  {
    NewsOrder();
    forall j | i <= j < |u| ensures u[j] != y {
      assert u[i] in u && u[j] in u;
      assert j > i ==> NewsLe(u[i], u[j]);
    }
  }

  /** `k` items that come before `x` push it out of the first `k`. */
  lemma PushedOut(u: seq<News>, w: seq<News>, k: nat, x: News)
    requires Ordered(u) && Consistent(u, u) && multiset(w) <= multiset(u) && |w| >= k
    requires forall y :: y in w ==> NewsLe(y, x) && y != x
    ensures x !in Take(u, Some(k))
  {
    forall i | 0 <= i < k && i < |u| ensures u[i] != x {
      if u[i] == x { FewerBefore(u, w, i); }
    }
  }

  lemma FewerBefore(u: seq<News>, w: seq<News>, i: nat)
    requires i < |u| && Ordered(u) && Consistent(u, u) && multiset(w) <= multiset(u)
    requires forall y :: y in w ==> NewsLe(y, u[i]) && y != u[i]
    ensures |w| <= i
  {
    assert u == u[..i] + u[i..];
    forall y | y in multiset(w) ensures multiset(w)[y] <= multiset(u[..i])[y] {
      assert y in w;
      StandsBefore(u, i, y);
      InByCount(u[i..], y);
    }
    MultisetSize(w, u[..i]);
  }

  // ---------------------------------------------------------------- when a cut shows

  lemma {:induction false} DistinctSize(s: seq<News>)
    requires DistinctNews(s)
    ensures |set x | x in s| == |s|
  {
    if s != [] {
      var n := |s| - 1;
      DistinctSize(s[..n]);
      assert s == s[..n] + [s[n]];
      assert s[n] !in s[..n];
      assert (set x | x in s) == (set x | x in s[..n]) + {s[n]};
    }
  }

  /** `x` is older than every item of the list. */
  ghost predicate BehindAll(x: News, b: seq<News>) {
    forall y :: y in b ==> NewsLe(y, x) && y.id != x.id
  }

  lemma {:induction false} SetSize(s: seq<News>)
    ensures |set x | x in s| <= |s|
  {
    if s != [] {
      var n := |s| - 1;
      SetSize(s[..n]);
      assert s == s[..n] + [s[n]];
      assert (set x | x in s) == (set x | x in s[..n]) + {s[n]};
    }
  }

  lemma FewerItems(v: seq<News>, s: seq<News>)
    requires DistinctNews(v) && forall x :: x in v ==> x in s
    ensures |v| <= |s|
  {
    DistinctSize(v);
    SetSize(s);
    var sv, ss := set x | x in v, set x | x in s;
    assert ss == sv + (ss - sv);
  }

  /** Merging a list into an opener with one older item. */
  lemma MergedUnderOne(q: seq<News>, x: News)
    requires Consistent(q, q) && BehindAll(x, q)
    ensures var v := Sort(NewsLe, Joined([x], q)); Descending(v) && forall y :: y in v <==> y == x || y in q
  {
    MergedFacts([x], q);
  }

  lemma RepeatIsSpare(q: seq<News>, i: nat, j: nat)
    requires i < j < |q| && q[i] == q[j]
    ensures forall y :: y in q ==> y in q[..j] + q[j + 1..]
  {
    assert q == q[..j] + [q[j]] + q[j + 1..];
    assert q[..j][i] == q[j];
  }

  /** In the whole merge `x` comes last. */
  lemma OlderIsLast(b: seq<News>, x: News)
    requires Consistent(b, b) && BehindAll(x, b)
    ensures var u := Sort(NewsLe, Joined([x], b)); u != [] && u[|u| - 1] == x
  {
    var u := Sort(NewsLe, Joined([x], b));
    MergedUnderOne(b, x);
    NewsOrder();
    assert x in u;
    var i :| 0 <= i < |u| && u[i] == x;
    var last := u[|u| - 1];
    assert last in u;
    assert i < |u| - 1 ==> NewsLe(x, last) && x.id != last.id;
  }

  /** A list with a repeat lacks one of as many different items. */
  lemma RepeatLacksOne(v: seq<News>, q: seq<News>, i: nat, j: nat) returns (n: News)
    requires DistinctNews(v) && |v| == |q| && i < j < |q| && q[i] == q[j]
    ensures n in v && n !in q
  {
    if forall y :: y in v ==> y in q {
      RepeatIsSpare(q, i, j);
      FewerItems(v, q[..j] + q[j + 1..]);
      assert false;
    }
    n :| n in v && n !in q;
  }

  lemma LastIsOutside(b: seq<News>, k: nat, x: News)
    requires Consistent(b, b) && BehindAll(x, b) && k < |Sort(NewsLe, Joined([x], b))|
    ensures x !in Sort(NewsLe, Joined([x], b))[..k]
  {
    MergedUnderOne(b, x);
    OlderIsLast(b, x);
  }

  lemma FirstRepeat(b: seq<News>, k: nat) returns (i: nat, j: nat)
    requires Consistent(b, b) && !CutSafe(b, k)
    ensures k < |b| && i < j < k && b[i] == b[j]
  {
    i, j :| 0 <= i < j < k && b[..k][i].id == b[..k][j].id;
    assert b[i] in b && b[j] in b;
  }

  /** Of a list that may not be cut, the first `k` of its merge with an older item hold one that the cut drops. */
  lemma CutHides(b: seq<News>, k: nat, x: News) returns (n: News)
    requires Consistent(b, b) && BehindAll(x, b) && !CutSafe(b, k)
    ensures n in Take(Sort(NewsLe, Joined([x], b)), Some(k)) && n != x && n !in b[..k]
  {
    var u := Sort(NewsLe, Joined([x], b));
    MergedUnderOne(b, x);
    if |u| <= k {
      n :| n in b && n !in b[..k];
      assert n in u;
    } else {
      var i, j := FirstRepeat(b, k);
      LastIsOutside(b, k, x);
      n := RepeatLacksOne(u[..k], b[..k], i, j);
    }
  }
}
