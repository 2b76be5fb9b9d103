/** What fusing promises: every topic ends in one card, no news item is lost, and none is doubled by fusing. */
module FusionTheorems {
  import opened Prelude
  import opened FusionCards
  import opened NewsLists
  import opened GreedyScan
  import opened EventFusion

  /** The topics' lists are newest first and name one item by one id; repeats are allowed. */
  ghost predicate Listed(cards: seq<Card>) {
    && (forall i :: 0 <= i < |cards| ==> Ordered(cards[i].news))
    && forall i, j :: 0 <= i < |cards| && 0 <= j < |cards| ==> Consistent(cards[i].news, cards[j].news)
  }

  ghost predicate FromGroup(cards: seq<Card>, ms: seq<nat>, n: News)
    requires Indices(cards, ms)
  {
    exists x :: 0 <= x < |ms| && n in cards[ms[x]].news
  }

  lemma FromGroupStep(cards: seq<Card>, ms: seq<nat>, n: News)
    requires Indices(cards, ms) && |ms| > 1
    ensures FromGroup(cards, ms, n) <==> FromGroup(cards, ms[..|ms| - 1], n) || n in cards[ms[|ms| - 1]].news
  {
    var k := |ms| - 1;
    if FromGroup(cards, ms[..k], n) {
      var i :| 0 <= i < k && n in cards[ms[..k][i]].news;
      assert n in cards[ms[i]].news;
    }
    if FromGroup(cards, ms, n) {
      var i :| 0 <= i < |ms| && n in cards[ms[i]].news;
      if i < k { assert n in cards[ms[..k][i]].news; }
    }
  }

  lemma FromOpener(cards: seq<Card>, ms: seq<nat>, n: News)
    requires Indices(cards, ms) && n in cards[ms[0]].news
    ensures FromGroup(cards, ms, n)
  {
  }

  /** A group's running list is ordered and made of its members' items, with and without a limit. */
  lemma {:induction false} FoldListed(cards: seq<Card>, ms: seq<nat>, limit: Option<nat>)
    requires Listed(cards) && Indices(cards, ms)
    ensures Ordered(Fold(cards, ms, limit).news)
    ensures forall n :: n in Fold(cards, ms, limit).news ==> FromGroup(cards, ms, n)
  {
    if |ms| > 1 {
      var k := |ms| - 1;
      FoldListed(cards, ms[..k], limit);
      FoldConsistent(cards, ms[..k], ms[k], limit);
      MergeListed(Fold(cards, ms[..k], limit), cards[ms[k]], limit);
      forall n | n in Fold(cards, ms, limit).news ensures FromGroup(cards, ms, n) {
        FromGroupStep(cards, ms, n);
      }
    } else {
      forall n | n in cards[ms[0]].news ensures FromGroup(cards, ms, n) {
        FromOpener(cards, ms, n);
      }
    }
  }

  lemma MergeListed(a: Card, b: Card, limit: Option<nat>)
    requires Consistent(a.news, a.news) && Consistent(a.news, b.news) && Consistent(b.news, b.news)
    ensures Ordered(Merge(a, b, limit).news) && forall n :: n in Merge(a, b, limit).news ==> n in a.news || n in b.news
  {
    MergedOrdered(a.news, b.news);
  }

  lemma FoldConsistent(cards: seq<Card>, ms: seq<nat>, j: nat, limit: Option<nat>)
    requires Listed(cards) && Indices(cards, ms) && j < |cards|
    requires forall n :: n in Fold(cards, ms, limit).news ==> FromGroup(cards, ms, n)
    ensures var a, b := Fold(cards, ms, limit).news, cards[j].news;
            Consistent(a, a) && Consistent(a, b) && Consistent(b, b)
  {
    var a, b := Fold(cards, ms, limit).news, cards[j].news;
    forall x, y | x in a && y in a && x.id == y.id ensures x == y {
      var i :| 0 <= i < |ms| && x in cards[ms[i]].news;
      var i' :| 0 <= i' < |ms| && y in cards[ms[i']].news;
    }
    forall x, y | x in a && y in b && x.id == y.id ensures x == y {
      var i :| 0 <= i < |ms| && x in cards[ms[i]].news;
    }
  }

  /** What a group's running list and the next card have to offer a merge. */
  lemma RunningList(cards: seq<Card>, ms: seq<nat>, j: nat, limit: Option<nat>)
    requires Listed(cards) && Indices(cards, ms) && j < |cards|
    ensures var a, b := Fold(cards, ms, limit).news, cards[j].news;
            Ordered(a) && Ordered(b) && Consistent(a, a) && Consistent(a, b) && Consistent(b, b)
  {
    FoldListed(cards, ms, limit);
    FoldConsistent(cards, ms, j, limit);
  }

  /** How often an item stands in the list of a group: as often as in the opener's, or once if only other
      members have it. */
  ghost function Times(cards: seq<Card>, ms: seq<nat>, n: News): nat
    requires Indices(cards, ms)
  {
    var opener := cards[ms[0]].news;
    if n in opener then multiset(opener)[n] else if FromGroup(cards, ms, n) then 1 else 0
  }

  lemma {:induction false} FoldTimes(cards: seq<Card>, ms: seq<nat>, n: News)
    requires Listed(cards) && Indices(cards, ms)
    ensures multiset(Fold(cards, ms, None).news)[n] == Times(cards, ms, n)
  {
    if |ms| > 1 {
      var k := |ms| - 1;
      FoldTimes(cards, ms[..k], n);
      RunningList(cards, ms[..k], ms[k], None);
      MergedCount(Fold(cards, ms[..k], None).news, cards[ms[k]].news, n);
      FromGroupStep(cards, ms, n);
    } else if n !in cards[ms[0]].news {
      assert !FromGroup(cards, ms, n);
    }
  }

  ghost predicate Holds(groups: seq<seq<nat>>, x: nat, j: nat) {
    x < |groups| && j in groups[x]
  }

  /** Each input card is absorbed by exactly one output. */
  lemma FusionPartition(tok: Tokenizer, limit: Option<nat>, cards: seq<Card>, j: nat)
    requires j < |cards|
    ensures var groups := Groups(Rule(tok, limit, cards), |cards|);
            && |Fused(tok, limit, cards)| == |groups|
            && (exists x :: Holds(groups, x, j))
            && (forall x, y :: Holds(groups, x, j) && Holds(groups, y, j) ==> x == y)
  {
    var groups := Groups(Rule(tok, limit, cards), |cards|);
    GroupsPartition(Rule(tok, limit, cards), |cards|);
    GroupsAreIndices(tok, limit, cards);
    FoldsSize(cards, groups, limit);
    assert Placed(groups, j);
    var x :| 0 <= x < |groups| && j in groups[x];
    assert Holds(groups, x, j);
  }

  /** Without a limit an output's news list holds exactly its inputs' items, newest first. It names each item
      once if and only if the list of its opener does. */
  lemma FusionKeepsNews(tok: Tokenizer, cards: seq<Card>, x: nat)
    requires Listed(cards) && x < |Groups(Rule(tok, None, cards), |cards|)|
    ensures var g := Groups(Rule(tok, None, cards), |cards|)[x];
            && |Fused(tok, None, cards)| == |Groups(Rule(tok, None, cards), |cards|)| && Indices(cards, g)
            && Ordered(Fused(tok, None, cards)[x].news)
            && (forall n :: multiset(Fused(tok, None, cards)[x].news)[n] == Times(cards, g, n))
            && (forall n :: n in Fused(tok, None, cards)[x].news <==> FromGroup(cards, g, n))
            && (DistinctNews(Fused(tok, None, cards)[x].news) <==> DistinctNews(cards[g[0]].news))
  {
    var groups := Groups(Rule(tok, None, cards), |cards|);
    GroupsAreIndices(tok, None, cards);
    FoldsAt(cards, groups, None, x);
    FoldKeepsNews(cards, groups[x]);
  }

  lemma FoldKeepsNews(cards: seq<Card>, ms: seq<nat>)
    requires Listed(cards) && Indices(cards, ms)
    ensures var ns := Fold(cards, ms, None).news;
            && Ordered(ns) && (forall n :: multiset(ns)[n] == Times(cards, ms, n))
            && (forall n :: n in ns <==> FromGroup(cards, ms, n))
            && (DistinctNews(ns) <==> DistinctNews(cards[ms[0]].news))
  {
    var ns, opener := Fold(cards, ms, None).news, cards[ms[0]].news;
    RunningList(cards, ms, ms[0], None);
    forall n
      ensures multiset(ns)[n] == Times(cards, ms, n)
      ensures n in ns <==> FromGroup(cards, ms, n)
    {
      FoldTimes(cards, ms, n);
      InByCount(ns, n);
      InByCount(opener, n);
      if n in opener { FromOpener(cards, ms, n); }
    }
    OnceEach(ns);
    OnceEach(opener);
    forall n ensures multiset(ns)[n] <= 1 <==> multiset(opener)[n] <= 1 {
      InByCount(opener, n);
    }
  }
}
