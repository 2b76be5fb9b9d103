/** The header of a fused card, from the cards of its group; and when two cards fuse, in terms of what they
    have in common. */
module FusionHeaders {
  import opened Prelude
  import opened FusionCards
  import opened GreedyScan
  import opened EventFusion

  // ---------------------------------------------------------------- when two cards fuse

  lemma {:induction false} SharedPair(s: set<string>)
    ensures |s| >= 2 <==> exists a, b :: a in s && b in s && a != b
  {
    if a, b :| a in s && b in s && a != b {
      assert s == {a} + (s - {a}) && b in s - {a};
    }
    if |s| >= 2 {
      var a :| a in s;
      var rest := s - {a};
      assert s == {a} + rest;
      assert rest != {};
      var b :| b in rest;
    }
  }

  lemma HalfShared(a: set<string>, b: set<string>)
    ensures Overlap(a, b) >= 0.5 <==> a != {} && b != {} && 2 * |a * b| >= |a + b|
  {
    if a != {} && b != {} {
      assert a <= a + b;
      assert a + b != {};
      HalfOf(|a * b| as real, |a + b| as real);
    }
  }

  lemma HalfOf(x: real, y: real)
    requires y > 0.0
    ensures x / y >= 0.5 <==> 2.0 * x >= y
  {
    assert x == x / y * y;
    if x / y >= 0.5 { assert (x / y - 0.5) * y >= 0.0; } else { assert (0.5 - x / y) * y > 0.0; }
  }

  /** Two cards fuse if and only if they are of one kind, not the general one, and name the same main symbol, or
      share two symbols, or half of all the words of their titles. */
  lemma FuseIff(tok: Tokenizer, a: Card, b: Card)
    ensures ShouldFuse(tok, a, b) <==>
      && a.kind == b.kind != "general"
      && ( || (exists s :: s != "" && a.primarySymbol == Some(s) && b.primarySymbol == Some(s))
           || (exists s, t :: s != t && s in a.symbols && t in a.symbols && s in b.symbols && t in b.symbols)
           || (var v, w := tok(a.title), tok(b.title); v != {} && w != {} && 2 * |v * w| >= |v + w|))
  {
    HalfShared(tok(a.title), tok(b.title));
    var common := SymbolSet(a) * SymbolSet(b);
    SharedPair(common);
    forall s ensures s in common <==> s in a.symbols && s in b.symbols {
    }
    if Truthy(a.primarySymbol) && a.primarySymbol == b.primarySymbol {
      assert b.primarySymbol == Some(a.primarySymbol.value);
    }
  }

  // ---------------------------------------------------------------- first occurrences

  ghost predicate NoRepeats(xs: seq<string>) {
    forall i, j :: 0 <= i < j < |xs| ==> xs[i] != xs[j]
  }

  /** `r` lists the elements of `xs`, each once, in the order in which they first occur. */
  ghost predicate FirstOccurrences(xs: seq<string>, r: seq<string>) {
    && NoRepeats(r) && (forall x :: x in r <==> x in xs)
    && forall i, j :: 0 <= i < j < |r| ==> OccursBefore(xs, r[i], r[j])
  }

  ghost predicate OccursBefore(xs: seq<string>, a: string, b: string) {
    exists p :: 0 <= p <= |xs| && a in xs[..p] && b !in xs[..p]
  }

  lemma LaterToo(xs: seq<string>, x: string, a: string, b: string)
    requires OccursBefore(xs, a, b)
    ensures OccursBefore(xs + [x], a, b)
  {
    var p :| 0 <= p <= |xs| && a in xs[..p] && b !in xs[..p];
    assert (xs + [x])[..p] == xs[..p];
  }

  lemma {:induction false} UnrepeatedFacts(xs: seq<string>)
    ensures FirstOccurrences(xs, Unrepeated(xs))
  {
    if xs != [] {
      var n := |xs| - 1;
      var front, x := xs[..n], xs[n];
      UnrepeatedFacts(front);
      assert xs == front + [x];
      OneMoreOccurrence(front, x, Unrepeated(front));
    }
  }

  lemma OneMoreOccurrence(front: seq<string>, x: string, r: seq<string>)
    requires FirstOccurrences(front, r)
    ensures FirstOccurrences(front + [x], if x in r then r else r + [x])
  {
    var all, after := front + [x], if x in r then r else r + [x];
    forall i, j | 0 <= i < j < |after| ensures OccursBefore(all, after[i], after[j]) {
      if j < |r| {
        LaterToo(front, x, r[i], r[j]);
      } else {
        assert all[..|front|] == front && r[i] in r && x !in front;
      }
    }
  }

  lemma {:induction false} UnrepeatedPrefix(xs: seq<string>, ys: seq<string>)
    ensures Unrepeated(xs) <= Unrepeated(xs + ys)
  {
    if ys == [] {
      assert xs + ys == xs;
    } else {
      assert (xs + ys)[..|xs + ys| - 1] == xs + ys[..|ys| - 1];
      UnrepeatedPrefix(xs, ys[..|ys| - 1]);
    }
  }

  lemma {:induction false} UnrepeatedStays(xs: seq<string>)
    requires NoRepeats(xs)
    ensures Unrepeated(xs) == xs
  {
    if xs != [] {
      var n := |xs| - 1;
      UnrepeatedStays(xs[..n]);
      assert xs == xs[..n] + [xs[n]];
    }
  }

  lemma {:induction false} UnrepeatedAgain(xs: seq<string>, ys: seq<string>)
    ensures Unrepeated(Unrepeated(xs) + ys) == Unrepeated(xs + ys)
  {
    if ys == [] {
      UnrepeatedFacts(xs);
      UnrepeatedStays(Unrepeated(xs));
      assert xs + ys == xs && Unrepeated(xs) + ys == Unrepeated(xs);
    } else {
      var front := ys[..|ys| - 1];
      assert (xs + ys)[..|xs + ys| - 1] == xs + front;
      assert (Unrepeated(xs) + ys)[..|Unrepeated(xs) + ys| - 1] == Unrepeated(xs) + front;
      UnrepeatedAgain(xs, front);
    }
  }

  /** Cutting to the first `k` before more is added does not change the first `k`. */
  lemma CutThenAdd(xs: seq<string>, ys: seq<string>, k: nat)
    ensures Take(Unrepeated(Take(Unrepeated(xs), Some(k)) + ys), Some(k)) == Take(Unrepeated(xs + ys), Some(k))
  {
    var u := Unrepeated(xs);
    if k < |u| {
      UnrepeatedFacts(xs);
      UnrepeatedStays(u[..k]);
      UnrepeatedPrefix(u[..k], ys);
      UnrepeatedPrefix(xs, ys);
    } else {
      UnrepeatedAgain(xs, ys);
    }
  }

  // ---------------------------------------------------------------- the fields

  /** Title, market, sentiment and kind are the opener's. */
  lemma {:induction false} OpenerFields(cards: seq<Card>, ms: seq<nat>, limit: Option<nat>)
    requires Indices(cards, ms)
    ensures var c, o := Fold(cards, ms, limit), cards[ms[0]];
            c.title == o.title && c.market == o.market && c.sentiment == o.sentiment && c.kind == o.kind
  {
    if |ms| > 1 { OpenerFields(cards, ms[..|ms| - 1], limit); }
  }

  /** The largest of the members' importances. */
  ghost predicate Largest(cards: seq<Card>, ms: seq<nat>, v: real)
    requires Indices(cards, ms)
  {
    && (forall y :: 0 <= y < |ms| ==> cards[ms[y]].importance <= v)
    && exists y :: 0 <= y < |ms| && cards[ms[y]].importance == v
  }

  lemma LargestStep(cards: seq<Card>, ms: seq<nat>, n: nat, v: real)
    requires Indices(cards, ms) && |ms| == n + 1 > 1 && Largest(cards, ms[..n], v)
    ensures Largest(cards, ms, if v >= cards[ms[n]].importance then v else cards[ms[n]].importance)
  {
    var y :| 0 <= y < n && cards[ms[..n][y]].importance == v;
    assert forall z :: 0 <= z < n ==> ms[..n][z] == ms[z];
    assert cards[ms[y]].importance == v;
  }

  lemma {:induction false} ImportanceIsLargest(cards: seq<Card>, ms: seq<nat>, limit: Option<nat>)
    requires Indices(cards, ms)
    ensures Largest(cards, ms, Fold(cards, ms, limit).importance)
  {
    if |ms| > 1 {
      var n := |ms| - 1;
      ImportanceIsLargest(cards, ms[..n], limit);
      LargestStep(cards, ms, n, Fold(cards, ms[..n], limit).importance);
    } else {
      assert cards[ms[0]].importance == Fold(cards, ms, limit).importance;
    }
  }

  /** `b` was seen no earlier than `a`, where never is the earliest. */
  ghost predicate SeenBy(a: Option<int>, b: Option<int>) {
    a.Some? ==> b.Some? && a.value <= b.value
  }

  /** The latest of the members' last-seen instants, or none if no member has one. */
  ghost predicate Latest(cards: seq<Card>, ms: seq<nat>, v: Option<int>)
    requires Indices(cards, ms)
  {
    && (forall y :: 0 <= y < |ms| ==> SeenBy(cards[ms[y]].lastSeen, v))
    && exists y :: 0 <= y < |ms| && cards[ms[y]].lastSeen == v
  }

  lemma LatestStep(cards: seq<Card>, ms: seq<nat>, n: nat, v: Option<int>)
    requires Indices(cards, ms) && |ms| == n + 1 > 1 && Latest(cards, ms[..n], v)
    ensures Latest(cards, ms, LaterSeen(v, cards[ms[n]].lastSeen))
  {
    var y :| 0 <= y < n && cards[ms[..n][y]].lastSeen == v;
    assert forall z :: 0 <= z < n ==> ms[..n][z] == ms[z];
    assert cards[ms[y]].lastSeen == v;
    var w := LaterSeen(v, cards[ms[n]].lastSeen);
    forall z | 0 <= z < |ms| ensures SeenBy(cards[ms[z]].lastSeen, w) {
      if z < n { assert SeenBy(cards[ms[..n][z]].lastSeen, v); }
    }
  }

  lemma {:induction false} LastSeenIsLatest(cards: seq<Card>, ms: seq<nat>, limit: Option<nat>)
    requires Indices(cards, ms)
    ensures Latest(cards, ms, Fold(cards, ms, limit).lastSeen)
  {
    if |ms| > 1 {
      var n := |ms| - 1;
      LastSeenIsLatest(cards, ms[..n], limit);
      LatestStep(cards, ms, n, Fold(cards, ms[..n], limit).lastSeen);
    } else {
      assert cards[ms[0]].lastSeen == Fold(cards, ms, limit).lastSeen;
    }
  }

  /** `r` is the first of the values that is there and not empty; the last value if none is. */
  ghost predicate FirstFilled(vs: seq<Option<string>>, r: Option<string>)
    requires vs != []
  {
    if exists y :: 0 <= y < |vs| && vs[y].Some? && vs[y] != Some("")
    then exists y :: 0 <= y < |vs| && vs[y] == r && r.Some? && r != Some("")
                     && forall z :: 0 <= z < y ==> vs[z] == None || vs[z] == Some("")
    else r == vs[|vs| - 1]
  }

  lemma FirstFilledStep(vs: seq<Option<string>>, r: Option<string>, v: Option<string>)
    requires vs != [] && FirstFilled(vs, r)
    ensures FirstFilled(vs + [v], Or(r, v))
  {
    var all := vs + [v];
    if exists y :: 0 <= y < |vs| && vs[y].Some? && vs[y] != Some("") {
      var y :| 0 <= y < |vs| && vs[y] == r && r.Some? && r != Some("")
               && forall z :: 0 <= z < y ==> vs[z] == None || vs[z] == Some("");
      assert all[y] == r && forall z :: 0 <= z < y ==> all[z] == vs[z];
    } else {
      assert all[|vs|] == v && forall z :: 0 <= z < |vs| ==> all[z] == vs[z];
    }
  }

  function Summaries(cards: seq<Card>, ms: seq<nat>): seq<Option<string>>
    requires Indices(cards, ms)
  {
    seq(|ms|, y requires 0 <= y < |ms| => cards[ms[y]].summary)
  }

  function PrimarySymbols(cards: seq<Card>, ms: seq<nat>): seq<Option<string>>
    requires Indices(cards, ms)
  {
    seq(|ms|, y requires 0 <= y < |ms| => cards[ms[y]].primarySymbol)
  }

  lemma ValuesGrow(cards: seq<Card>, ms: seq<nat>, n: nat)
    requires Indices(cards, ms) && |ms| == n + 1 > 1
    ensures Summaries(cards, ms) == Summaries(cards, ms[..n]) + [cards[ms[n]].summary]
    ensures PrimarySymbols(cards, ms) == PrimarySymbols(cards, ms[..n]) + [cards[ms[n]].primarySymbol]
  {
  }

  /** The summary is the first filled one in the order of fusing. */
  lemma {:induction false} FirstSummaryWins(cards: seq<Card>, ms: seq<nat>, limit: Option<nat>)
    requires Indices(cards, ms)
    ensures FirstFilled(Summaries(cards, ms), Fold(cards, ms, limit).summary)
  {
    if |ms| > 1 {
      var n := |ms| - 1;
      FirstSummaryWins(cards, ms[..n], limit);
      FirstFilledStep(Summaries(cards, ms[..n]), Fold(cards, ms[..n], limit).summary, cards[ms[n]].summary);
      ValuesGrow(cards, ms, n);
    }
  }

  /** And so is the main symbol. */
  lemma {:induction false} FirstSymbolWins(cards: seq<Card>, ms: seq<nat>, limit: Option<nat>)
    requires Indices(cards, ms)
    ensures FirstFilled(PrimarySymbols(cards, ms), Fold(cards, ms, limit).primarySymbol)
  {
    if |ms| > 1 {
      var n := |ms| - 1;
      FirstSymbolWins(cards, ms[..n], limit);
      FirstFilledStep(PrimarySymbols(cards, ms[..n]), Fold(cards, ms[..n], limit).primarySymbol, cards[ms[n]].primarySymbol);
      ValuesGrow(cards, ms, n);
    }
  }

  function AllSymbols(cards: seq<Card>, ms: seq<nat>): seq<string>
    requires Indices(cards, ms)
  {
    if |ms| == 1 then cards[ms[0]].symbols else AllSymbols(cards, ms[..|ms| - 1]) + cards[ms[|ms| - 1]].symbols
  }

  /** The symbols of a merged card are the first five of all its members' symbols, each once, although every merge
      cuts. A card that absorbs nothing keeps its symbols. */
  lemma {:induction false} FirstFiveSymbols(cards: seq<Card>, ms: seq<nat>, limit: Option<nat>)
    requires Indices(cards, ms)
    ensures Fold(cards, ms, limit).symbols ==
      if |ms| == 1 then cards[ms[0]].symbols else Take(Unrepeated(AllSymbols(cards, ms)), Some(5))
  {
    if |ms| > 2 {
      var n := |ms| - 1;
      FirstFiveSymbols(cards, ms[..n], limit);
      CutThenAdd(AllSymbols(cards, ms[..n]), cards[ms[n]].symbols, 5);
    } else if |ms| == 2 {
      assert ms[..1] == [ms[0]];
    }
  }

  /** The counts of a merged card are taken before its list is cut: the list shows as many items as the limit and
      the count allow, and a list that is not cut shows as many as are counted, from as many sources. */
  lemma CountsAreTrue(cards: seq<Card>, ms: seq<nat>, limit: Option<nat>)
    requires Indices(cards, ms) && |ms| > 1
    ensures var c := Fold(cards, ms, limit);
            && (limit.Some? && limit.value < c.newsCount ==> |c.news| == limit.value)
            && (limit.None? || limit.value >= c.newsCount ==>
                  |c.news| == c.newsCount && c.sourceCount == |set n | n in c.news :: n.source|)
  {
  }

  /** What the header of every card of the fused run is. */
  ghost predicate HeaderOf(cards: seq<Card>, ms: seq<nat>, c: Card)
    requires Indices(cards, ms)
  {
    var o := cards[ms[0]];
    && c.title == o.title && c.market == o.market && c.sentiment == o.sentiment && c.kind == o.kind
    && Largest(cards, ms, c.importance) && Latest(cards, ms, c.lastSeen)
    && FirstFilled(Summaries(cards, ms), c.summary) && FirstFilled(PrimarySymbols(cards, ms), c.primarySymbol)
    && (|ms| == 1 ==> c.symbols == o.symbols)
    && (|ms| > 1 ==> exists r :: FirstOccurrences(AllSymbols(cards, ms), r) && c.symbols == Take(r, Some(5)))
  }

  lemma FoldHeader(cards: seq<Card>, ms: seq<nat>, limit: Option<nat>)
    requires Indices(cards, ms)
    ensures HeaderOf(cards, ms, Fold(cards, ms, limit))
  {
    OpenerFields(cards, ms, limit);
    ImportanceIsLargest(cards, ms, limit);
    LastSeenIsLatest(cards, ms, limit);
    FirstSummaryWins(cards, ms, limit);
    FirstSymbolWins(cards, ms, limit);
    FirstFiveSymbols(cards, ms, limit);
    if |ms| > 1 { UnrepeatedFacts(AllSymbols(cards, ms)); }
  }

  /** The headers of the fused run, with any limit on the lists. */
  lemma FusedHeaders(tok: Tokenizer, limit: Option<nat>, cards: seq<Card>, x: nat)
    requires x < |Groups(Rule(tok, limit, cards), |cards|)|
    ensures var g := Groups(Rule(tok, limit, cards), |cards|)[x];
            && x < |Fused(tok, limit, cards)| && Indices(cards, g) && HeaderOf(cards, g, Fused(tok, limit, cards)[x])
  {
    var groups := Groups(Rule(tok, limit, cards), |cards|);
    GroupsAreIndices(tok, limit, cards);
    FoldsAt(cards, groups, limit, x);
    FoldHeader(cards, groups[x], limit);
  }
}
