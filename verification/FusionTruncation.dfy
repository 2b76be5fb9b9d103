/** Cutting the news lists short: it changes nothing but the news lists and their counts, and exactly when a
    short list is the beginning of the long one. */
module FusionTruncation {
  import opened Prelude
  import opened FusionCards
  import opened NewsLists
  import opened GreedyScan
  import opened EventFusion
  import opened FusionTheorems

  /** The inputs with their news lists cut to `k`, as the feed builds them. */
  function Cut(c: Card, k: nat): Card {
    c.(news := Take(c.news, Some(k)))
  }

  function CutAll(cards: seq<Card>, k: nat): (r: seq<Card>)
    ensures |r| == |cards| && forall i :: 0 <= i < |r| ==> r[i] == Cut(cards[i], k)
  {
    seq(|cards|, i requires 0 <= i < |cards| => Cut(cards[i], k))
  }

  /** Equal in every field but the news list and the two counts taken from it. */
  ghost predicate SameHeader(a: Card, b: Card) {
    a == b.(news := a.news, newsCount := a.newsCount, sourceCount := a.sourceCount)
  }

  lemma HeadersDecide(tok: Tokenizer, a: Card, a': Card, b: Card, b': Card)
    requires SameHeader(a, a') && SameHeader(b, b')
    ensures ShouldFuse(tok, a, b) == ShouldFuse(tok, a', b')
  {
    assert SymbolSet(a) == SymbolSet(a') && SymbolSet(b) == SymbolSet(b');
  }

  lemma {:induction false} FoldHeaders(cards: seq<Card>, ms: seq<nat>, k: nat)
    requires Indices(cards, ms)
    ensures SameHeader(Fold(CutAll(cards, k), ms, Some(k)), Fold(cards, ms, None))
  {
    if |ms| > 1 { FoldHeaders(cards, ms[..|ms| - 1], k); }
  }

  /** Truncation never takes part in fusing: on any cards, the run on lists cut to `k` makes the same groups
      and, card for card, the same cards up to the news lists and their counts. */
  lemma TruncationKeepsCards(tok: Tokenizer, cards: seq<Card>, k: nat)
    ensures Groups(Rule(tok, Some(k), CutAll(cards, k)), |cards|) == Groups(Rule(tok, None, cards), |cards|)
    ensures |Fused(tok, Some(k), CutAll(cards, k))| == |Fused(tok, None, cards)|
    ensures forall x :: 0 <= x < |Fused(tok, None, cards)| ==>
              SameHeader(Fused(tok, Some(k), CutAll(cards, k))[x], Fused(tok, None, cards)[x])
  {
    var short := CutAll(cards, k);
    var f, g := Rule(tok, Some(k), short), Rule(tok, None, cards);
    forall ms, j: nat | Proper(ms, |cards|) && j < |cards| ensures f(ms, j) == g(ms, j) {
      FoldHeaders(cards, ms, k);
      HeadersDecide(tok, Fold(short, ms, Some(k)), Fold(cards, ms, None), short[j], cards[j]);
    }
    SameGroups(f, g, |cards|, |cards|);
    var groups := Groups(g, |cards|);
    GroupsAreIndices(tok, None, cards);
    GroupsAreIndices(tok, Some(k), short);
    FoldsSize(cards, groups, None);
    FoldsSize(short, groups, Some(k));
    forall x | 0 <= x < |groups| ensures SameHeader(Folds(short, groups, Some(k))[x], Folds(cards, groups, None)[x]) {
      FoldsAt(cards, groups, None, x);
      FoldsAt(short, groups, Some(k), x);
      FoldHeaders(cards, groups[x], k);
    }
  }

  // ---------------------------------------------------------------- the lists themselves

  lemma CutAllListed(cards: seq<Card>, k: nat)
    requires Listed(cards)
    ensures Listed(CutAll(cards, k))
  {
    var short := CutAll(cards, k);
    forall i, j | 0 <= i < |cards| && 0 <= j < |cards| ensures Consistent(short[i].news, short[j].news) {
      forall x ensures x in short[i].news ==> x in cards[i].news { TakeParts(cards[i].news, k, x); }
      forall x ensures x in short[j].news ==> x in cards[j].news { TakeParts(cards[j].news, k, x); }
    }
  }

  /** How often the short list of a group would hold an item if it had room for all of them: as often as the
      opener does, or once if the cut list of another member has it. */
  ghost function Due(cards: seq<Card>, ms: seq<nat>, k: nat, n: News): nat
    requires Indices(cards, ms)
  {
    var opener := cards[ms[0]].news;
    if n in opener then multiset(opener)[n] else if FromGroup(CutAll(cards, k), ms, n) then 1 else 0
  }

  lemma DueStep(cards: seq<Card>, ms: seq<nat>, k: nat, n: News)
    requires Indices(cards, ms) && |ms| > 1
    ensures Due(cards, ms, k, n) == Due(cards, ms[..|ms| - 1], k, n)
         || (Due(cards, ms, k, n) == 1 && n in Take(cards[ms[|ms| - 1]].news, Some(k)))
  {
    FromGroupStep(CutAll(cards, k), ms, n);
  }

  /** What the short list lacks of that comes behind its first `k`. */
  lemma {:induction false} LackedIsBehind(cards: seq<Card>, ms: seq<nat>, k: nat, n: News)
    requires Listed(cards) && Indices(cards, ms) && k > 0
    ensures var short := Fold(CutAll(cards, k), ms, Some(k)).news;
            multiset(short)[n] < Due(cards, ms, k, n) ==> Behind(short, k, n)
  {
    var cut := CutAll(cards, k);
    if |ms| == 1 {
      var opener := cards[ms[0]].news;
      if multiset(Take(opener, Some(k)))[n] < Due(cards, ms, k, n) {
        TakeParts(opener, k, n);
        DroppedIsBehind(opener, k, n);
      }
    } else {
      var m := |ms| - 1;
      LackedIsBehind(cards, ms[..m], k, n);
      CutAllListed(cards, k);
      RunningList(cut, ms[..m], ms[m], Some(k));
      DueStep(cards, ms, k, n);
      LackedStep(Fold(cut, ms[..m], Some(k)).news, cut[ms[m]].news, k, n, Due(cards, ms[..m], k, n), Due(cards, ms, k, n));
    }
  }

  /** What the last merge of a short list takes in, and what that of the long one does. */
  lemma MergeIsPart(cards: seq<Card>, ms: seq<nat>, k: nat, n: News)
    requires Listed(cards) && Indices(cards, ms) && |ms| > 1
    requires var front := ms[..|ms| - 1];
             multiset(Fold(CutAll(cards, k), front, Some(k)).news)[n] <= multiset(Fold(cards, front, None).news)[n]
    ensures var m := |ms| - 1;
            var s := MergedNews(Fold(CutAll(cards, k), ms[..m], Some(k)), CutAll(cards, k)[ms[m]]);
            multiset(s)[n] <= multiset(MergedNews(Fold(cards, ms[..m], None), cards[ms[m]]))[n]
  {
    var m, cut := |ms| - 1, CutAll(cards, k);
    CutAllListed(cards, k);
    RunningList(cut, ms[..m], ms[m], Some(k));
    RunningList(cards, ms[..m], ms[m], None);
    TakeParts(cards[ms[m]].news, k, n);
    PartsMerge(Fold(cut, ms[..m], Some(k)).news, cut[ms[m]].news, Fold(cards, ms[..m], None).news, cards[ms[m]].news, n);
  }

  /** The short list holds nothing that the long one does not hold as often. */
  lemma {:induction false} ShortIsPart(cards: seq<Card>, ms: seq<nat>, k: nat, n: News)
    requires Listed(cards) && Indices(cards, ms)
    ensures multiset(Fold(CutAll(cards, k), ms, Some(k)).news)[n] <= multiset(Fold(cards, ms, None).news)[n]
  {
    if |ms| == 1 {
      TakeParts(cards[ms[0]].news, k, n);
    } else {
      var m := |ms| - 1;
      ShortIsPart(cards, ms[..m], k, n);
      MergeIsPart(cards, ms, k, n);
      TakeParts(MergedNews(Fold(CutAll(cards, k), ms[..m], Some(k)), CutAll(cards, k)[ms[m]]), k, n);
    }
  }

  /** So its news count, taken before the list is cut, never exceeds the true one. */
  lemma CountsFallShort(cards: seq<Card>, ms: seq<nat>, k: nat)
    requires Listed(cards) && Indices(cards, ms)
    ensures Fold(CutAll(cards, k), ms, Some(k)).newsCount <= Fold(cards, ms, None).newsCount
  {
    if |ms| > 1 {
      var m := |ms| - 1;
      var s := MergedNews(Fold(CutAll(cards, k), ms[..m], Some(k)), CutAll(cards, k)[ms[m]]);
      var l := MergedNews(Fold(cards, ms[..m], None), cards[ms[m]]);
      forall n ensures multiset(s)[n] <= multiset(l)[n] {
        ShortIsPart(cards, ms[..m], k, n);
        MergeIsPart(cards, ms, k, n);
      }
      MultisetSize(s, l);
    }
  }

  /** The cut lists of the group's members have all these items. */
  ghost predicate InCutLists(cards: seq<Card>, ms: seq<nat>, k: nat, ns: seq<News>)
    requires Indices(cards, ms)
  {
    forall n :: n in ns ==> FromGroup(CutAll(cards, k), ms, n)
  }

  /** What the short list lacks of the long one comes behind its first `k`, if the long one's first `k` are in
      the cut lists. */
  lemma LackedOfLong(cards: seq<Card>, ms: seq<nat>, k: nat, n: News)
    requires Listed(cards) && Indices(cards, ms) && k > 0
    requires InCutLists(cards, ms, k, Take(Fold(cards, ms, None).news, Some(k)))
    requires multiset(Fold(CutAll(cards, k), ms, Some(k)).news)[n] < multiset(Fold(cards, ms, None).news)[n]
    ensures Behind(Fold(CutAll(cards, k), ms, Some(k)).news, k, n)
  {
    var short, long := Fold(CutAll(cards, k), ms, Some(k)).news, Fold(cards, ms, None).news;
    var first := Take(long, Some(k));
    InByCount(long, n);
    FirstAreDue(cards, ms, k, n);
    LackedIsBehind(cards, ms, k, n);
    if n !in first {
      RunningList(cards, ms, ms[0], None);
      CutAllListed(cards, k);
      FoldListed(CutAll(cards, k), ms, Some(k));
      InByCount(first, n);
      DroppedIsLater(long, k, n);
      if z :| z in first && multiset(short)[z] < multiset(first)[z] {
        TakeParts(long, k, z);
        FirstAreDue(cards, ms, k, z);
        LackedIsBehind(cards, ms, k, z);
        NewsOrder();
      } else {
        forall z ensures multiset(first)[z] <= multiset(short)[z] { InByCount(first, z); }
        EnoughBefore(short, first, k, n);
      }
    }
  }

  lemma FirstAreDue(cards: seq<Card>, ms: seq<nat>, k: nat, n: News)
    requires Listed(cards) && Indices(cards, ms)
    requires InCutLists(cards, ms, k, Take(Fold(cards, ms, None).news, Some(k)))
    ensures n in Take(Fold(cards, ms, None).news, Some(k)) ==>
      multiset(Fold(cards, ms, None).news)[n] == Due(cards, ms, k, n)
  {
    FoldTimes(cards, ms, n);
    TakeParts(Fold(cards, ms, None).news, k, n);
    InByCount(Fold(cards, ms, None).news, n);
  }

  lemma {:induction false} ShortFits(cards: seq<Card>, ms: seq<nat>, k: nat)
    requires Indices(cards, ms)
    ensures Take(Fold(CutAll(cards, k), ms, Some(k)).news, Some(k)) == Fold(CutAll(cards, k), ms, Some(k)).news
  {
  }

  /** For any chain of merges: the short list is the first `k` of the long one exactly if those are all in the
      cut lists of the members. */
  lemma FoldCommutesIff(cards: seq<Card>, ms: seq<nat>, k: nat)
    requires Listed(cards) && Indices(cards, ms)
    ensures Fold(CutAll(cards, k), ms, Some(k)).news == Take(Fold(cards, ms, None).news, Some(k))
      <==> InCutLists(cards, ms, k, Take(Fold(cards, ms, None).news, Some(k)))
  {
    var short, long := Fold(CutAll(cards, k), ms, Some(k)).news, Fold(cards, ms, None).news;
    CutAllListed(cards, k);
    FoldListed(CutAll(cards, k), ms, Some(k));
    ShortFits(cards, ms, k);
    if k > 0 && InCutLists(cards, ms, k, Take(long, Some(k))) {
      RunningList(cards, ms, ms[0], None);
      forall n
        ensures multiset(short)[n] <= multiset(long)[n]
        ensures multiset(short)[n] < multiset(long)[n] ==> k <= |short| && NewsLe(short[k - 1], n)
      {
        ShortIsPart(cards, ms, k, n);
        if multiset(short)[n] < multiset(long)[n] { LackedOfLong(cards, ms, k, n); }
      }
      assert LacksOnlyLater(short, long, k);
      TopItems(short, long, k);
    }
  }

  /** Of every card of the fused run, for any opener and any chain of merges: the short list is the first `k` of
      the long one exactly if each of those items is among the first `k` of some topic of the card. The news
      count may fall short in any case, and never exceeds the true one. */
  lemma TruncationCommutesIff(tok: Tokenizer, cards: seq<Card>, k: nat, x: nat)
    requires Listed(cards) && x < |Groups(Rule(tok, None, cards), |cards|)|
    ensures x < |Fused(tok, None, cards)| == |Fused(tok, Some(k), CutAll(cards, k))|
    ensures var g := Groups(Rule(tok, None, cards), |cards|)[x];
            var short, full := Fused(tok, Some(k), CutAll(cards, k))[x], Fused(tok, None, cards)[x];
            && Indices(cards, g) && short.newsCount <= full.newsCount
            && (short.news == Take(full.news, Some(k)) <==> InCutLists(cards, g, k, Take(full.news, Some(k))))
  {
    OutputFolds(tok, cards, k, x);
    FoldCommutesIff(cards, Groups(Rule(tok, None, cards), |cards|)[x], k);
    CountsFallShort(cards, Groups(Rule(tok, None, cards), |cards|)[x], k);
  }

  /** Output card `x` of both runs. */
  lemma OutputFolds(tok: Tokenizer, cards: seq<Card>, k: nat, x: nat)
    requires x < |Groups(Rule(tok, None, cards), |cards|)|
    ensures var g := Groups(Rule(tok, None, cards), |cards|)[x];
            && Indices(cards, g) && x < |Fused(tok, None, cards)| == |Fused(tok, Some(k), CutAll(cards, k))|
            && Fused(tok, Some(k), CutAll(cards, k))[x] == Fold(CutAll(cards, k), g, Some(k))
            && Fused(tok, None, cards)[x] == Fold(cards, g, None)
  {
    var groups := Groups(Rule(tok, None, cards), |cards|);
    TruncationKeepsCards(tok, cards, k);
    GroupsAreIndices(tok, None, cards);
    FoldsAt(cards, groups, None, x);
    FoldsAt(CutAll(cards, k), groups, Some(k), x);
  }

  // ---------------------------------------------------------------- conditions on the topics alone

  /** Every card that the group's opener absorbs may be cut. */
  ghost predicate AbsorbedSafe(cards: seq<Card>, ms: seq<nat>, k: nat) {
    forall y :: 1 <= y < |ms| && ms[y] < |cards| ==> CutSafe(cards[ms[y]].news, k)
  }

  /** An item that a member's cut drops, of an opener or of a list that may be cut, is not among the first `k`. */
  lemma DroppedIsOutside(cards: seq<Card>, ms: seq<nat>, k: nat, y: nat, n: News)
    requires Listed(cards) && Indices(cards, ms) && AbsorbedSafe(cards, ms, k) && y < |ms|
    requires n in cards[ms[y]].news && n !in Take(cards[ms[y]].news, Some(k))
    ensures n !in Take(Fold(cards, ms, None).news, Some(k))
  {
    var b, long := cards[ms[y]].news, Fold(cards, ms, None).news;
    var w := Take(b, Some(k));
    InByCount(b, n);
    InByCount(w, n);
    DroppedIsLater(b, k, n);
    RunningList(cards, ms, ms[0], None);
    forall z ensures multiset(w)[z] <= multiset(long)[z] {
      if z in w {
        KeptOnce(b, k, n, y == 0, z);
        TakeParts(b, k, z);
        FoldTimes(cards, ms, z);
        InByCount(cards[ms[0]].news, z);
      }
    }
    PushedOut(long, w, k, n);
  }

  /** If every card a group absorbs may be cut, the group's short list is the first `k` of its long one; the
      opener itself may list items twice. */
  lemma TruncationCommutes(tok: Tokenizer, cards: seq<Card>, k: nat, x: nat)
    requires Listed(cards) && x < |Groups(Rule(tok, None, cards), |cards|)|
    requires AbsorbedSafe(cards, Groups(Rule(tok, None, cards), |cards|)[x], k)
    ensures x < |Fused(tok, None, cards)| == |Fused(tok, Some(k), CutAll(cards, k))|
    ensures Fused(tok, Some(k), CutAll(cards, k))[x].news == Take(Fused(tok, None, cards)[x].news, Some(k))
  {
    OutputFolds(tok, cards, k, x);
    FoldCommutes(cards, Groups(Rule(tok, None, cards), |cards|)[x], k);
  }

  lemma FoldCommutes(cards: seq<Card>, ms: seq<nat>, k: nat)
    requires Listed(cards) && Indices(cards, ms) && AbsorbedSafe(cards, ms, k)
    ensures Fold(CutAll(cards, k), ms, Some(k)).news == Take(Fold(cards, ms, None).news, Some(k))
  {
    var first := Take(Fold(cards, ms, None).news, Some(k));
    forall n | n in first ensures FromGroup(CutAll(cards, k), ms, n) {
      TakeParts(Fold(cards, ms, None).news, k, n);
      FoldListed(cards, ms, None);
      var y :| 0 <= y < |ms| && n in cards[ms[y]].news;
      if n !in Take(cards[ms[y]].news, Some(k)) { DroppedIsOutside(cards, ms, k, y, n); }
      assert n in CutAll(cards, k)[ms[y]].news;
    }
    FoldCommutesIff(cards, ms, k);
  }

  /** Two cards that should fuse do. */
  lemma PairFuses(tok: Tokenizer, limit: Option<nat>, cards: seq<Card>)
    requires |cards| == 2 && ShouldFuse(tok, cards[0], cards[1])
    ensures Fused(tok, limit, cards) == [Merge(cards[0], cards[1], limit)]
  {
    var rule := Rule(tok, limit, cards);
    assert Indices(cards, [0]) && Fold(cards, [0], limit) == cards[0];
    PairGroups(rule);
    GroupsAreIndices(tok, limit, cards);
    FoldsAt(cards, [[0, 1]], limit, 0);
    assert [0, 1][..1] == [0];
  }

  lemma PairGroups(rule: Joins)
    requires rule([0], 1)
    ensures Groups(rule, 2) == [[0, 1]]
  {
    assert AbsorbTo(rule, 0, 1, {}) == Absorbed([0], {});
    assert AbsorbTo(rule, 0, 2, {}) == Absorbed([0, 1], {1});
    assert GroupsTo(rule, 0, 2) == Grouping([], {});
    assert GroupsTo(rule, 1, 2) == Grouping([[0, 1]], {1});
  }

  /** Under an opener with a single item, older than all of the absorbed topic's, the condition on that topic is
      exact: the short list is the first `k` of the long one if and only if the topic may be cut. */
  lemma OlderOpenerIff(tok: Tokenizer, cards: seq<Card>, k: nat, x: News)
    requires Listed(cards) && |cards| == 2 && ShouldFuse(tok, cards[0], cards[1]) && k > 0
    requires cards[0].news == [x] && BehindAll(x, cards[1].news)
    ensures |Fused(tok, None, cards)| == 1 == |Fused(tok, Some(k), CutAll(cards, k))|
    ensures Fused(tok, Some(k), CutAll(cards, k))[0].news == Take(Fused(tok, None, cards)[0].news, Some(k))
      <==> CutSafe(cards[1].news, k)
  {
    PairIsFold(tok, cards, None);
    PairIsFold(tok, CutAll(cards, k), Some(k));
    OlderOpenerFold(cards, k, x);
  }

  lemma PairIsFold(tok: Tokenizer, cards: seq<Card>, limit: Option<nat>)
    requires |cards| == 2 && ShouldFuse(tok, cards[0], cards[1])
    ensures Fused(tok, limit, cards) == [Fold(cards, [0, 1], limit)]
  {
    PairFuses(tok, limit, cards);
    PairFold(cards, limit);
  }

  lemma OlderOpenerFold(cards: seq<Card>, k: nat, x: News)
    requires |cards| == 2 && k > 0 && Listed(cards) && cards[0].news == [x] && BehindAll(x, cards[1].news)
    ensures Fold(CutAll(cards, k), [0, 1], Some(k)).news == Take(Fold(cards, [0, 1], None).news, Some(k))
      <==> CutSafe(cards[1].news, k)
  {
    if CutSafe(cards[1].news, k) {
      assert AbsorbedSafe(cards, [0, 1], k);
      FoldCommutes(cards, [0, 1], k);
    } else {
      FoldCommutesIff(cards, [0, 1], k);
      PairFold(cards, None);
      var n := CutHides(cards[1].news, k, x);
      NotInPair(cards, k, n);
    }
  }

  lemma PairFold(cards: seq<Card>, limit: Option<nat>)
    requires |cards| == 2
    ensures Fold(cards, [0, 1], limit) == Merge(cards[0], cards[1], limit)
  {
    assert [0, 1][..1] == [0] && Fold(cards, [0], limit) == cards[0];
  }

  lemma NotInPair(cards: seq<Card>, k: nat, n: News)
    requires |cards| == 2 && n !in Take(cards[0].news, Some(k)) && n !in Take(cards[1].news, Some(k))
    ensures !FromGroup(CutAll(cards, k), [0, 1], n)
  {
  }

  /** At the feed's length of three: a topic that lists its first item twice hides its third one behind an older
      item of the opener. */
  lemma RepeatHidesItem(tok: Tokenizer, cards: seq<Card>, n1: News, n2: News, n3: News, x: News)
    requires |cards| == 2 && ShouldFuse(tok, cards[0], cards[1])
    requires cards[0].news == [x] && cards[1].news == [n1, n1, n2, n3]
    requires Descending([n1, n2, n3, x])
    ensures |Fused(tok, None, cards)| == 1 == |Fused(tok, Some(3), CutAll(cards, 3))|
    ensures Fused(tok, Some(3), CutAll(cards, 3))[0].news != Take(Fused(tok, None, cards)[0].news, Some(3))
  {
    FourItems(n1, n2, n3, x);
    PairListed(cards);
    RepeatIsUnsafe(n1, n2, n3);
    OlderOpenerIff(tok, cards, 3, x);
  }

  lemma PairListed(cards: seq<Card>)
    requires |cards| == 2 && Ordered(cards[0].news) && Ordered(cards[1].news)
    requires Consistent(cards[0].news, cards[0].news) && Consistent(cards[0].news, cards[1].news)
    requires Consistent(cards[1].news, cards[0].news) && Consistent(cards[1].news, cards[1].news)
    ensures Listed(cards)
  {
  }

  lemma FourItems(n1: News, n2: News, n3: News, x: News)
    requires Descending([n1, n2, n3, x])
    ensures BehindAll(x, [n1, n1, n2, n3]) && Ordered([n1, n1, n2, n3]) && Ordered([x])
    ensures Consistent([x], [x]) && Consistent([x], [n1, n1, n2, n3])
    ensures Consistent([n1, n1, n2, n3], [x]) && Consistent([n1, n1, n2, n3], [n1, n1, n2, n3])
    ensures n1.id != n3.id && n2.id != n3.id
  {
    InPairs(n1, n2, n3, x);
    NewsOrder();
    forall y | y in [n1, n1, n2, n3] ensures y == n1 || y == n2 || y == n3 { }
  }

  lemma InPairs(n1: News, n2: News, n3: News, x: News)
    requires Descending([n1, n2, n3, x])
    ensures NewsLe(n1, n2) && NewsLe(n1, n3) && NewsLe(n1, x) && NewsLe(n2, n3) && NewsLe(n2, x) && NewsLe(n3, x)
    ensures n1.id != n2.id && n1.id != n3.id && n1.id != x.id && n2.id != n3.id && n2.id != x.id && n3.id != x.id
  {
    var d := [n1, n2, n3, x];
    assert d[0] == n1 && d[1] == n2 && d[2] == n3 && d[3] == x;
  }

  lemma RepeatIsUnsafe(n1: News, n2: News, n3: News)
    requires n1.id != n3.id && n2.id != n3.id
    ensures !CutSafe([n1, n1, n2, n3], 3)
  {
    var b := [n1, n1, n2, n3];
    assert b[..3] == [n1, n1, n2];
    assert b[..3][0].id == b[..3][1].id;
    assert b[3] in b && n3 !in b[..3];
  }
}
