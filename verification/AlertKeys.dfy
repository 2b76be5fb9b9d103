/** Dedupe keys of the alert table: one text a fact, and no two facts with the same text. */
module AlertKeys {
  import opened Decimals
  import opened Calendar
  import opened DigestBuffer

  datatype Key =
    | PriceKey(symbol: string, day: Date)
    | NewsKey(newsId: nat, symbol: string)
    | DigestKey(group: Group, startText: string)
    | OverseasKey(newsId: nat)

  function Prefix(k: Key): string {
    match k
    case PriceKey(_, _) => "price"
    case NewsKey(_, _) => "news"
    case DigestKey(Watch, _) => "watch_digest"
    case DigestKey(Sector, _) => "sector_digest"
    case DigestKey(Opportunity, _) => "opportunity_digest"
    case OverseasKey(_) => "overseas"
  }

  function Rest(k: Key): string {
    match k
    case PriceKey(symbol, day) => symbol + ":" + DateText(day)
    case NewsKey(newsId, symbol) => ToText(newsId) + ":" + symbol
    case DigestKey(_, startText) => startText
    case OverseasKey(newsId) => ToText(newsId)
  }

  function KeyText(k: Key): string {
    Prefix(k) + [':'] + Rest(k)
  }

  /** The texts that rows of earlier versions of the process stand under. */
  lemma KeyTexts(symbol: string, day: Date, newsId: nat, start: string)
    ensures KeyText(PriceKey(symbol, day)) == "price:" + symbol + ":" + DateText(day)
    ensures KeyText(NewsKey(newsId, symbol)) == "news:" + ToText(newsId) + ":" + symbol
    ensures KeyText(DigestKey(Watch, start)) == "watch_digest:" + start
    ensures KeyText(DigestKey(Sector, start)) == "sector_digest:" + start
    ensures KeyText(DigestKey(Opportunity, start)) == "opportunity_digest:" + start
    ensures KeyText(OverseasKey(newsId)) == "overseas:" + ToText(newsId)
  {
    PriceText(symbol, day);
    NewsText(newsId, symbol);
    DigestText(Watch, start, "watch_digest:");
    DigestText(Sector, start, "sector_digest:");
    DigestText(Opportunity, start, "opportunity_digest:");
    WithColon("overseas", ToText(newsId), "overseas:");
  }

  lemma PriceText(symbol: string, day: Date)
    ensures KeyText(PriceKey(symbol, day)) == "price:" + symbol + ":" + DateText(day)
  {
    WithColon("price", symbol + ":" + DateText(day), "price:");
    Regroup("price:", symbol, ":" + DateText(day));
    Regroup("price:" + symbol, ":", DateText(day));
    Regroup(symbol, ":", DateText(day));
  }

  lemma NewsText(newsId: nat, symbol: string)
    ensures KeyText(NewsKey(newsId, symbol)) == "news:" + ToText(newsId) + ":" + symbol
  {
    WithColon("news", ToText(newsId) + ":" + symbol, "news:");
    Regroup("news:", ToText(newsId), ":" + symbol);
    Regroup("news:" + ToText(newsId), ":", symbol);
    Regroup(ToText(newsId), ":", symbol);
  }

  lemma DigestText(g: Group, start: string, prefix: string)
    requires Prefix(DigestKey(g, start)) + [':'] == prefix
    ensures KeyText(DigestKey(g, start)) == prefix + start
  {
  }

  lemma Regroup(a: string, b: string, c: string)
    ensures (a + b) + c == a + (b + c)
  {
  }

  lemma WithColon(prefix: string, rest: string, all: string)
    requires prefix + [':'] == all
    ensures prefix + [':'] + rest == all + rest
  {
  }

  predicate ValidKey(k: Key) {
    k.PriceKey? ==> ValidDate(k.day)
  }

  lemma PrefixHasNoColon(k: Key)
    ensures ':' !in Prefix(k)
  {
  }

  lemma NumberHasNoColon(n: nat)
    ensures ':' !in ToText(n)
  {
    TextRoundTrip(n);
  }

  lemma SamePrefixSameKind(a: Key, b: Key)
    requires Prefix(a) == Prefix(b)
    ensures a.PriceKey? <==> b.PriceKey?
    ensures a.NewsKey? <==> b.NewsKey?
    ensures a.OverseasKey? <==> b.OverseasKey?
    ensures a.DigestKey? && b.DigestKey? ==> a.group == b.group
  {
    assert Prefix(a)[0] == Prefix(b)[0] && |Prefix(a)| == |Prefix(b)|;
  }

  lemma PriceRestInjective(s: string, d: Date, r: string, e: Date)
    requires ValidDate(d) && ValidDate(e) && s + ":" + DateText(d) == r + ":" + DateText(e)
    ensures s == r && d == e
  {
    var x, y := s + ":" + DateText(d), r + ":" + DateText(e);
    assert |x| == |s| + 11 && |y| == |r| + 11;
    assert x[|s| + 1..] == DateText(d) && y[|r| + 1..] == DateText(e);
    DateRoundTrip(d);
    DateRoundTrip(e);
    assert x[..|s|] == s && y[..|r|] == r;
  }

  lemma NewsRestInjective(m: nat, s: string, n: nat, r: string)
    requires ToText(m) + ":" + s == ToText(n) + ":" + r
    ensures m == n && s == r
  {
    NumberHasNoColon(m);
    NumberHasNoColon(n);
    SplitAtSeparator(ToText(m), s, ToText(n), r, ':');
    TextInjective(m, n);
  }

  /** Whatever the symbols contain, the text of a key tells the key: an alert of one kind can never stand
      in the way of another, and two facts of one kind never share a row. */
  lemma KeyTextInjective(a: Key, b: Key)
    requires ValidKey(a) && ValidKey(b) && KeyText(a) == KeyText(b)
    ensures a == b
  {
    assert Prefix(a) == Prefix(b) && Rest(a) == Rest(b) by {
      PrefixHasNoColon(a);
      PrefixHasNoColon(b);
      SplitAtSeparator(Prefix(a), Rest(a), Prefix(b), Rest(b), ':');
    }
    SamePrefixSameKind(a, b);
    match a
    case PriceKey(symbol, day) => PriceRestInjective(symbol, day, b.symbol, b.day);
    case NewsKey(newsId, symbol) => NewsRestInjective(newsId, symbol, b.newsId, b.symbol);
    case DigestKey(_, _) =>
    case OverseasKey(newsId) => TextInjective(newsId, b.newsId);
  }
}
