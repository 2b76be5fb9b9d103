/** Event cards of the news feed: when two of them fuse, and what the fused card is. */
module FusionCards {
  import opened Prelude
  import opened Ordering

  datatype News = News(id: nat, source: string, effectiveAt: Option<int>, publishedAt: Option<int>, fetchedAt: Option<int>)

  datatype Card = Card(key: string, title: string, summary: Option<string>, kind: string, market: string,
                       sentiment: string, importance: real, lastSeen: Option<int>, primarySymbol: Option<string>,
                       symbols: seq<string>, sourceCount: nat, newsCount: nat, news: seq<News>)

  type Tokenizer = string -> set<string>  // the word splitter of titles

  /** A missing instant sorts below every other. */
  predicate InstantLe(a: Option<int>, b: Option<int>) {
    a.None? || (b.Some? && a.value <= b.value)
  }

  function Instant(n: News): Option<int> {
    if n.effectiveAt.Some? then n.effectiveAt else if n.publishedAt.Some? then n.publishedAt else n.fetchedAt
  }

  /** `a` comes no later than `b` in the list: the newer instant first, then the later fetch, then the id. */
  predicate NewsLe(a: News, b: News) {
    if Instant(a) != Instant(b) then InstantLe(Instant(b), Instant(a))
    else if a.fetchedAt != b.fetchedAt then InstantLe(b.fetchedAt, a.fetchedAt)
    else a.id >= b.id
  }

  /** `x` is the later instant, where none is the earliest. */
  predicate Later(x: Option<int>, y: Option<int>) {
    x.Some? && (y.None? || x.value > y.value)
  }

  /** Newest first: by the effective instant, or the published or the fetched one where that is missing; then by the
      fetched instant, then by the higher id. */
  lemma NewestFirst(a: News, b: News, x: Option<int>, y: Option<int>)
    requires x == a.effectiveAt || (a.effectiveAt == None && x == a.publishedAt)
      || (a.effectiveAt == None && a.publishedAt == None && x == a.fetchedAt)
    requires x.Some? || a.effectiveAt == a.publishedAt == a.fetchedAt == None
    requires y == b.effectiveAt || (b.effectiveAt == None && y == b.publishedAt)
      || (b.effectiveAt == None && b.publishedAt == None && y == b.fetchedAt)
    requires y.Some? || b.effectiveAt == b.publishedAt == b.fetchedAt == None
    ensures NewsLe(a, b) <==>
      Later(x, y) || (x == y && (Later(a.fetchedAt, b.fetchedAt) || (a.fetchedAt == b.fetchedAt && a.id >= b.id)))
  {
  }

  lemma NewsOrder()
    ensures TotalPreorder(NewsLe)
    ensures forall a, b :: NewsLe(a, b) && NewsLe(b, a) ==> a.id == b.id
  {
  }

  predicate Truthy(s: Option<string>) {
    s.Some? && s.value != ""
  }

  function Or(a: Option<string>, b: Option<string>): Option<string> {
    if Truthy(a) then a else b
  }

  function SymbolSet(c: Card): set<string> {
    set s | s in c.symbols
  }

  function Overlap(a: set<string>, b: set<string>): real {
    if a == {} || b == {} then 0.0 else
      assert a <= a + b;
      assert a + b != {};
      |a * b| as real / |a + b| as real
  }

  predicate ShouldFuse(tok: Tokenizer, a: Card, b: Card) {
    && a.kind != "general" && b.kind != "general" && a.kind == b.kind
    && ( || (Truthy(a.primarySymbol) && a.primarySymbol == b.primarySymbol)
         || |SymbolSet(a) * SymbolSet(b)| >= 2
         || Overlap(tok(a.title), tok(b.title)) >= 0.5)
  }

  predicate HasId(ns: seq<News>, id: nat) {
    exists i :: 0 <= i < |ns| && ns[i].id == id
  }

  /** `into`, followed by the items of `from` whose ids are new, each id once. */
  function Joined(into: seq<News>, from: seq<News>): seq<News> {
    if from == [] then into else
      var rest := Joined(into, from[..|from| - 1]);
      if HasId(rest, from[|from| - 1].id) then rest else rest + [from[|from| - 1]]
  }

  /** `dict.fromkeys`: the first occurrence of each element. */
  function Unrepeated(xs: seq<string>): seq<string> {
    if xs == [] then [] else
      var rest := Unrepeated(xs[..|xs| - 1]);
      if xs[|xs| - 1] in rest then rest else rest + [xs[|xs| - 1]]
  }

  function Take<T>(s: seq<T>, limit: Option<nat>): seq<T> {
    if limit.Some? && limit.value < |s| then s[..limit.value] else s
  }

  function Sources(ns: seq<News>): set<string> {
    set n | n in ns :: n.source
  }

  function LaterSeen(a: Option<int>, b: Option<int>): Option<int> {
    if InstantLe(b, a) then a else b
  }

  function FusedKey(a: string, b: string): string {
    "fused-" + a + "-" + b
  }

  function MergedNews(a: Card, b: Card): seq<News> {
    Sort(NewsLe, Joined(a.news, b.news))
  }

  function Merge(a: Card, b: Card, limit: Option<nat>): Card {
    var news := MergedNews(a, b);
    Card(FusedKey(a.key, b.key), a.title, Or(a.summary, b.summary), a.kind, a.market, a.sentiment,
         if a.importance >= b.importance then a.importance else b.importance,
         LaterSeen(a.lastSeen, b.lastSeen), Or(a.primarySymbol, b.primarySymbol),
         Take(Unrepeated(a.symbols + b.symbols), Some(5)),
         |Sources(news)|, |news|, Take(news, limit))
  }

  /** `_merge_cards`: the set of seen ids follows the list as it grows. */
  method MergeCards(a: Card, b: Card, limit: Option<nat>) returns (c: Card)
    ensures c == Merge(a, b, limit)
  {
    var merged := a.news;
    var seen := set n | n in a.news :: n.id;
    var i := 0;
    while i < |b.news|
      invariant 0 <= i <= |b.news|
      invariant merged == Joined(a.news, b.news[..i])
      invariant forall id :: id in seen <==> HasId(merged, id)
    {
      assert b.news[..i + 1][..i] == b.news[..i];
      var item := b.news[i];
      if item.id !in seen {
        HasIdAppend(merged, item);
        merged := merged + [item];
        seen := seen + {item.id};
      }
      i := i + 1;
    }
    assert b.news[..i] == b.news;
    var news := Sort(NewsLe, merged);
    c := Card(FusedKey(a.key, b.key), a.title, Or(a.summary, b.summary), a.kind, a.market, a.sentiment,
              if a.importance >= b.importance then a.importance else b.importance,
              LaterSeen(a.lastSeen, b.lastSeen), Or(a.primarySymbol, b.primarySymbol),
              Take(Unrepeated(a.symbols + b.symbols), Some(5)),
              |Sources(news)|, |news|, Take(news, limit));
  }

  lemma HasIdAppend(ns: seq<News>, n: News)
    ensures forall id :: HasId(ns + [n], id) <==> HasId(ns, id) || id == n.id
  {
    forall id ensures HasId(ns + [n], id) <==> HasId(ns, id) || id == n.id {
      if HasId(ns, id) {
        var i :| 0 <= i < |ns| && ns[i].id == id;
        assert (ns + [n])[i].id == id;
      }
      if id == n.id { assert (ns + [n])[|ns|].id == id; }
    }
  }
}
