/** The event detail: from the key of a card in the feed to the full card. */
module EventDetail {
  import opened Prelude
  import opened FusionCards
  import opened FusionKeys
  import opened GreedyScan
  import opened EventFusion
  import opened FusionTruncation

  /** The first card with the key, as the event detail looks it up. */
  function FindCard(cards: seq<Card>, key: string): Option<Card> {
    if cards == [] then None else if cards[0].key == key then Some(cards[0]) else FindCard(cards[1..], key)
  }

  lemma {:induction false} FindCardIn(cards: seq<Card>, c: Card)
    requires c in cards && forall d :: d in cards && d.key == c.key ==> d == c
    ensures FindCard(cards, c.key) == Some(c)
  {
    assert cards == [cards[0]] + cards[1..];
    if cards[0].key != c.key { FindCardIn(cards[1..], c); }
  }

  lemma FusedKeysDiffer(tok: Tokenizer, cards: seq<Card>, ids: seq<nat>, limit: Option<nat>, x: nat, y: nat)
    requires TopicCards(cards, ids) && x < |Fused(tok, limit, cards)| && y < |Fused(tok, limit, cards)|
    requires Fused(tok, limit, cards)[x].key == Fused(tok, limit, cards)[y].key
    ensures x == y
  {
    var groups := Groups(Rule(tok, limit, cards), |cards|);
    GroupsAreIndices(tok, limit, cards);
    GroupsPartition(Rule(tok, limit, cards), |cards|);
    FoldsSize(cards, groups, limit);
    FoldsAt(cards, groups, limit, x);
    FoldsAt(cards, groups, limit, y);
    SameKeySameGroup(cards, ids, groups[x], groups[y], limit);
    assert groups[x][0] in groups[x] && groups[x][0] in groups[y];
  }

  /** Every card of the feed has its detail: in whatever order the unlimited cards are listed, looking up the
      feed card's key finds its counterpart. */
  lemma DetailIsFound(tok: Tokenizer, cards: seq<Card>, ids: seq<nat>, k: nat, listed: seq<Card>, x: nat)
    requires TopicCards(cards, ids)
    requires multiset(listed) == multiset(Fused(tok, None, cards)) && x < |Fused(tok, None, cards)|
    ensures |Fused(tok, Some(k), CutAll(cards, k))| == |Fused(tok, None, cards)|
    ensures FindCard(listed, Fused(tok, Some(k), CutAll(cards, k))[x].key) == Some(Fused(tok, None, cards)[x])
  {
    TruncationKeepsCards(tok, cards, k);
    var full := Fused(tok, None, cards);
    assert full[x] in multiset(full) && full[x] in listed;
    forall d | d in listed && d.key == full[x].key ensures d == full[x] {
      assert d in multiset(listed) && d in full;
      var y :| 0 <= y < |full| && full[y] == d;
      FusedKeysDiffer(tok, cards, ids, None, x, y);
    }
    FindCardIn(listed, full[x]);
  }

  // ---------------------------------------------------------------- a feed and a detail from different inputs

  /** The topics of output card `x`, in the order in which they were fused. */
  ghost function TopicsOf(tok: Tokenizer, cards: seq<Card>, ids: seq<nat>, x: nat): seq<nat>
    requires |ids| == |cards| && x < |Groups(Rule(tok, None, cards), |cards|)|
  {
    GroupsAreIndices(tok, None, cards);
    Ids(ids, Groups(Rule(tok, None, cards), |cards|)[x])
  }

  lemma OutputKey(tok: Tokenizer, cards: seq<Card>, ids: seq<nat>, x: nat)
    requires TopicCards(cards, ids) && x < |Groups(Rule(tok, None, cards), |cards|)|
    ensures x < |Fused(tok, None, cards)| == |Groups(Rule(tok, None, cards), |cards|)|
    ensures TopicsOf(tok, cards, ids, x) != []
    ensures Fused(tok, None, cards)[x].key == KeyText(TopicsOf(tok, cards, ids, x))
  {
    var groups := Groups(Rule(tok, None, cards), |cards|);
    GroupsAreIndices(tok, None, cards);
    FoldsAt(cards, groups, None, x);
    FoldKey(cards, ids, groups[x], None);
  }

  lemma {:induction false} FindCardSome(cards: seq<Card>, key: string)
    ensures FindCard(cards, key).Some? <==> exists c :: c in cards && c.key == key
  {
    if cards != [] {
      FindCardSome(cards[1..], key);
      assert cards == [cards[0]] + cards[1..];
    }
  }

  /** Some output card is fused from these topics, in this order. */
  ghost predicate SomeCardOf(tok: Tokenizer, cards: seq<Card>, ids: seq<nat>, topics: seq<nat>)
    requires |ids| == |cards|
  {
    exists y: nat :: y < |Groups(Rule(tok, None, cards), |cards|)| && TopicsOf(tok, cards, ids, y) == topics
  }

  /** A card of one request is found by another request exactly if that one fuses a card from the same topics
      in the same order, whatever the two requests have collected. */
  lemma DetailFoundIff(tok: Tokenizer, feed: seq<Card>, feedIds: seq<nat>, k: nat, x: nat,
                       detail: seq<Card>, detailIds: seq<nat>, listed: seq<Card>)
    requires TopicCards(feed, feedIds) && TopicCards(detail, detailIds)
    requires x < |Groups(Rule(tok, None, feed), |feed|)| && multiset(listed) == multiset(Fused(tok, None, detail))
    ensures x < |Fused(tok, Some(k), CutAll(feed, k))|
    ensures FindCard(listed, Fused(tok, Some(k), CutAll(feed, k))[x].key).Some?
      <==> SomeCardOf(tok, detail, detailIds, TopicsOf(tok, feed, feedIds, x))
  {
    TruncationKeepsCards(tok, feed, k);
    OutputKey(tok, feed, feedIds, x);
    var key, full := Fused(tok, None, feed)[x].key, Fused(tok, None, detail);
    FindCardSome(listed, key);
    if c :| c in listed && c.key == key {
      assert c in multiset(listed) && c in full;
      var y :| 0 <= y < |full| && full[y] == c;
      FusedSize(tok, detail);
      OutputKey(tok, detail, detailIds, y);
      KeyTextInjective(TopicsOf(tok, feed, feedIds, x), TopicsOf(tok, detail, detailIds, y));
    }
    if SomeCardOf(tok, detail, detailIds, TopicsOf(tok, feed, feedIds, x)) {
      var y: nat :| y < |Groups(Rule(tok, None, detail), |detail|)|
                    && TopicsOf(tok, detail, detailIds, y) == TopicsOf(tok, feed, feedIds, x);
      OutputKey(tok, detail, detailIds, y);
      assert full[y] in full && full[y] in multiset(listed) && full[y] in listed;
    }
  }

  lemma FusedSize(tok: Tokenizer, cards: seq<Card>)
    ensures |Fused(tok, None, cards)| == |Groups(Rule(tok, None, cards), |cards|)|
  {
    GroupsAreIndices(tok, None, cards);
    FoldsSize(cards, Groups(Rule(tok, None, cards), |cards|), None);
  }

  // ---------------------------------------------------------------- the market filter

  /** The card of a topic from its news and mentions of one market, or of all; none if it has no news there or
      does not qualify. */
  type Maker = (nat, Option<string>) -> Option<Card>

  ghost predicate KeysTopics(make: Maker) {
    forall id, market :: make(id, market).Some? ==> make(id, market).value.key == TopicKey(id)
  }

  /** The topics that give a card under a market filter, in the order of the list. */
  function Kept(make: Maker, topics: seq<nat>, market: Option<string>): seq<nat> {
    if topics == [] then [] else
      Kept(make, topics[..|topics| - 1], market)
      + if make(topics[|topics| - 1], market).Some? then [topics[|topics| - 1]] else []
  }

  function Collected(make: Maker, topics: seq<nat>, market: Option<string>): seq<Card> {
    if topics == [] then [] else
      Collected(make, topics[..|topics| - 1], market)
      + match make(topics[|topics| - 1], market) { case Some(c) => [c] case None => [] }
  }

  lemma {:induction false} CollectedAreTopicCards(make: Maker, topics: seq<nat>, market: Option<string>)
    requires KeysTopics(make) && forall i, j :: 0 <= i < j < |topics| ==> topics[i] != topics[j]
    ensures TopicCards(Collected(make, topics, market), Kept(make, topics, market))
    ensures forall id :: id in Kept(make, topics, market) ==> id in topics
  {
    if topics != [] {
      var n := |topics| - 1;
      CollectedAreTopicCards(make, topics[..n], market);
      assert topics == topics[..n] + [topics[n]];
      var ids := Kept(make, topics[..n], market);
      forall i | 0 <= i < |ids| ensures ids[i] != topics[n] {
        assert ids[i] in ids && ids[i] in topics[..n];
      }
    }
  }

  lemma {:induction false} SameCollected(make: Maker, topics: seq<nat>, market: Option<string>)
    requires forall id :: id in topics ==> make(id, market) == make(id, None)
    ensures Collected(make, topics, market) == Collected(make, topics, None)
  {
    if topics != [] {
      assert topics == topics[..|topics| - 1] + [topics[|topics| - 1]];
      SameCollected(make, topics[..|topics| - 1], market);
    }
  }

  /** Every card of a feed that is not filtered, or whose filter changes no topic's card, has its detail. */
  lemma UnchangedFeedIsFound(tok: Tokenizer, make: Maker, topics: seq<nat>, market: Option<string>, k: nat, x: nat,
                             listed: seq<Card>)
    requires KeysTopics(make) && forall i, j :: 0 <= i < j < |topics| ==> topics[i] != topics[j]
    requires forall id :: id in topics ==> make(id, market) == make(id, None)
    requires multiset(listed) == multiset(Fused(tok, None, Collected(make, topics, None)))
    requires x < |Fused(tok, None, Collected(make, topics, None))|
    ensures var feed := Fused(tok, Some(k), CutAll(Collected(make, topics, market), k));
            x < |feed| && FindCard(listed, feed[x].key) == Some(Fused(tok, None, Collected(make, topics, None))[x])
  {
    SameCollected(make, topics, market);
    CollectedAreTopicCards(make, topics, None);
    DetailIsFound(tok, Collected(make, topics, None), Kept(make, topics, None), k, listed, x);
  }

  lemma TwoCollected(make: Maker, m: nat, n: nat, market: Option<string>)
    requires make(m, market).Some?
    ensures Collected(make, [m, n], market)
         == [make(m, market).value] + match make(n, market) { case Some(c) => [c] case None => [] }
  {
    assert [m][..0] == [] && Collected(make, [], market) == [];
    assert Collected(make, [m], market) == [make(m, market).value];
    assert [m, n][..1] == [m];
  }

  /** A filter that hides one of two topics that belong together: the feed shows the other one alone, and the
      unfiltered detail knows only the card of both. */
  lemma FilteredCardIsNotFound(tok: Tokenizer, make: Maker, m: nat, n: nat, market: Option<string>, k: nat)
    requires KeysTopics(make) && m != n
    requires make(m, market).Some? && make(n, market).None? && make(m, None).Some? && make(n, None).Some?
    requires ShouldFuse(tok, make(m, None).value, make(n, None).value)
    ensures var feed := Fused(tok, Some(k), CutAll(Collected(make, [m, n], market), k));
            && |feed| == 1 && feed[0].key == TopicKey(m)
            && FindCard(Fused(tok, None, Collected(make, [m, n], None)), feed[0].key) == None
  {
    TwoCollected(make, m, n, market);
    TwoCollected(make, m, n, None);
    var alone := CutAll(Collected(make, [m, n], market), k);
    FewCards(tok, Some(k), alone);
    var both := Collected(make, [m, n], None);
    PairFuses(tok, None, both);
    var merged := Merge(both[0], both[1], None);
    assert merged.key[0] == 'f' && TopicKey(m)[0] == 't';
    assert [merged][1..] == [];
    assert FindCard([merged], TopicKey(m)) == None;
  }
}
