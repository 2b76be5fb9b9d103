/** `fuse_event_cards`: the greedy scan over all pairs as the definition, and the bucketed scan with cached
    features that computes the same list. */
module EventFusion {
  import opened Prelude
  import opened FusionCards
  import opened FusionKeys
  import opened GreedyScan

  predicate Indices(cards: seq<Card>, ms: seq<nat>) {
    ms != [] && forall i :: 0 <= i < |ms| ==> ms[i] < |cards|
  }

  /** The card that a group of inputs fuses into, merged one by one. */
  function Fold(cards: seq<Card>, ms: seq<nat>, limit: Option<nat>): Card
    requires Indices(cards, ms)
  {
    if |ms| == 1 then cards[ms[0]] else Merge(Fold(cards, ms[..|ms| - 1], limit), cards[ms[|ms| - 1]], limit)
  }

  /** A group takes an input when the card it has become should fuse with the input's card. */
  function Rule(tok: Tokenizer, limit: Option<nat>, cards: seq<Card>): Joins {
    (ms: seq<nat>, j: nat) =>
      Indices(cards, ms) && j < |cards| && ShouldFuse(tok, Fold(cards, ms, limit), cards[j])
  }

  predicate AllIndices(cards: seq<Card>, groups: seq<seq<nat>>) {
    forall x :: 0 <= x < |groups| ==> Indices(cards, groups[x])
  }

  function Folds(cards: seq<Card>, groups: seq<seq<nat>>, limit: Option<nat>): seq<Card>
    requires AllIndices(cards, groups)
  {
    if groups == [] then [] else
      Folds(cards, groups[..|groups| - 1], limit) + [Fold(cards, groups[|groups| - 1], limit)]
  }

  lemma {:induction false} FoldsSize(cards: seq<Card>, groups: seq<seq<nat>>, limit: Option<nat>)
    requires AllIndices(cards, groups)
    ensures |Folds(cards, groups, limit)| == |groups|
  {
    if groups != [] { FoldsSize(cards, groups[..|groups| - 1], limit); }
  }

  lemma {:induction false} FoldsAt(cards: seq<Card>, groups: seq<seq<nat>>, limit: Option<nat>, x: nat)
    requires AllIndices(cards, groups) && x < |groups|
    ensures |Folds(cards, groups, limit)| == |groups|
    ensures Folds(cards, groups, limit)[x] == Fold(cards, groups[x], limit)
  {
    var n := |groups| - 1;
    FoldsSize(cards, groups, limit);
    FoldsSize(cards, groups[..n], limit);
    if x < n { FoldsAt(cards, groups[..n], limit, x); }
  }

  lemma GroupsAreIndices(tok: Tokenizer, limit: Option<nat>, cards: seq<Card>)
    ensures AllIndices(cards, Groups(Rule(tok, limit, cards), |cards|))
  {
    GroupsFacts(Rule(tok, limit, cards), |cards|, |cards|);
  }

  /** The scan over all pairs. */
  function Fused(tok: Tokenizer, limit: Option<nat>, cards: seq<Card>): seq<Card> {
    GroupsAreIndices(tok, limit, cards);
    Folds(cards, Groups(Rule(tok, limit, cards), |cards|), limit)
  }

  /** The inputs are cards of distinct topics. */
  ghost predicate TopicCards(cards: seq<Card>, ids: seq<nat>) {
    && |ids| == |cards|
    && (forall i :: 0 <= i < |cards| ==> cards[i].key == TopicKey(ids[i]))
    && forall i, j :: 0 <= i < j < |ids| ==> ids[i] != ids[j]
  }

  ghost function Ids(ids: seq<nat>, ms: seq<nat>): (r: seq<nat>)
    requires forall i :: 0 <= i < |ms| ==> ms[i] < |ids|
    ensures |r| == |ms| && forall i :: 0 <= i < |ms| ==> r[i] == ids[ms[i]]
  {
    seq(|ms|, i requires 0 <= i < |ms| => ids[ms[i]])
  }

  lemma {:induction false} FoldKey(cards: seq<Card>, ids: seq<nat>, ms: seq<nat>, limit: Option<nat>)
    requires TopicCards(cards, ids) && Indices(cards, ms)
    ensures Fold(cards, ms, limit).key == KeyText(Ids(ids, ms))
  {
    if |ms| > 1 {
      var n := |ms| - 1;
      FoldKey(cards, ids, ms[..n], limit);
      assert Ids(ids, ms)[..n] == Ids(ids, ms[..n]);
    }
  }

  /** Two fused cards with one key are fused from the same inputs, so they are the same card. */
  lemma SameKeySameGroup(cards: seq<Card>, ids: seq<nat>, a: seq<nat>, b: seq<nat>, limit: Option<nat>)
    requires TopicCards(cards, ids) && Indices(cards, a) && Indices(cards, b)
    requires Fold(cards, a, limit).key == Fold(cards, b, limit).key
    ensures a == b
  {
    FoldKey(cards, ids, a, limit);
    FoldKey(cards, ids, b, limit);
    KeyTextInjective(Ids(ids, a), Ids(ids, b));
    forall i | 0 <= i < |a| ensures a[i] == b[i] {
      assert ids[a[i]] == Ids(ids, a)[i] == Ids(ids, b)[i] == ids[b[i]];
    }
  }

  /** What is cached under a key is the feature of the card with that key, fused from the group `owner` names. */
  ghost predicate CachedRight(cards: seq<Card>, limit: Option<nat>, cached: map<string, set<string>>,
                              owner: map<string, seq<nat>>, feature: Card -> set<string>)
  {
    forall k :: k in cached ==>
      && k in owner && Indices(cards, owner[k]) && Fold(cards, owner[k], limit).key == k
      && cached[k] == feature(Fold(cards, owner[k], limit))
  }

  lemma CachedIs(cards: seq<Card>, ids: seq<nat>, limit: Option<nat>, cached: map<string, set<string>>,
                 owner: map<string, seq<nat>>, feature: Card -> set<string>, ms: seq<nat>)
    requires TopicCards(cards, ids) && Indices(cards, ms) && CachedRight(cards, limit, cached, owner, feature)
    requires Fold(cards, ms, limit).key in cached
    ensures owner[Fold(cards, ms, limit).key] == ms
    ensures cached[Fold(cards, ms, limit).key] == feature(Fold(cards, ms, limit))
  {
    SameKeySameGroup(cards, ids, ms, owner[Fold(cards, ms, limit).key], limit);
  }

  /** Meeting a card's key anew changes nothing, for it can only be met with the same group. */
  lemma OwnerStays(cards: seq<Card>, limit: Option<nat>, cached: map<string, set<string>>, owner: map<string, seq<nat>>,
                   feature: Card -> set<string>, key: string, ms: seq<nat>)
    requires CachedRight(cards, limit, cached, owner, feature)
    requires key in cached ==> owner[key] == ms
    ensures CachedRight(cards, limit, cached, owner[key := ms], feature)
  {
  }

  lemma Met(cards: seq<Card>, ids: seq<nat>, limit: Option<nat>, cached: map<string, set<string>>,
            owner: map<string, seq<nat>>, feature: Card -> set<string>, ms: seq<nat>)
    requires TopicCards(cards, ids) && Indices(cards, ms) && CachedRight(cards, limit, cached, owner, feature)
    ensures CachedRight(cards, limit, cached, owner[Fold(cards, ms, limit).key := ms], feature)
  {
    var key := Fold(cards, ms, limit).key;
    if key in cached { CachedIs(cards, ids, limit, cached, owner, feature, ms); }
    OwnerStays(cards, limit, cached, owner, feature, key, ms);
  }

  lemma FeatureStored(cards: seq<Card>, limit: Option<nat>, cached: map<string, set<string>>,
                      owner: map<string, seq<nat>>, feature: Card -> set<string>, key: string)
    requires CachedRight(cards, limit, cached, owner, feature)
    requires key in owner && Indices(cards, owner[key]) && Fold(cards, owner[key], limit).key == key
    ensures CachedRight(cards, limit, cached[key := feature(Fold(cards, owner[key], limit))], owner, feature)
  {
  }

  function TitleWords(tok: Tokenizer): Card -> set<string> {
    (c: Card) => tok(c.title)
  }

  /** Title words and symbol sets by event key; `owner` records the group each key was met with. */
  class FuseFeatureCache {
    var tokens: map<string, set<string>>
    var symbols: map<string, set<string>>
    ghost var owner: map<string, seq<nat>>

    constructor ()
      ensures tokens == map[] && symbols == map[]
    {
      tokens, symbols, owner := map[], map[], map[];
    }

    ghost predicate Sound(tok: Tokenizer, cards: seq<Card>, limit: Option<nat>)
      reads this
    {
      CachedRight(cards, limit, tokens, owner, TitleWords(tok)) && CachedRight(cards, limit, symbols, owner, SymbolSet)
    }

    method Tokens(tok: Tokenizer, card: Card, ghost cards: seq<Card>, ghost ids: seq<nat>, ghost ms: seq<nat>,
                  ghost limit: Option<nat>) returns (r: set<string>)
      requires TopicCards(cards, ids) && Indices(cards, ms) && card == Fold(cards, ms, limit)
      requires Sound(tok, cards, limit)
      modifies this
      ensures Sound(tok, cards, limit) && r == tok(card.title)
    {
      if card.key in tokens {
        CachedIs(cards, ids, limit, tokens, owner, TitleWords(tok), ms);
        return tokens[card.key];
      }
      Met(cards, ids, limit, tokens, owner, TitleWords(tok), ms);
      Met(cards, ids, limit, symbols, owner, SymbolSet, ms);
      r := tok(card.title);
      owner := owner[card.key := ms];
      FeatureStored(cards, limit, tokens, owner, TitleWords(tok), card.key);
      tokens := tokens[card.key := r];
    }

    method Symbols(tok: Tokenizer, card: Card, ghost cards: seq<Card>, ghost ids: seq<nat>, ghost ms: seq<nat>,
                   ghost limit: Option<nat>) returns (r: set<string>)
      requires TopicCards(cards, ids) && Indices(cards, ms) && card == Fold(cards, ms, limit)
      requires Sound(tok, cards, limit)
      modifies this
      ensures Sound(tok, cards, limit) && r == SymbolSet(card)
    {
      if card.key in symbols {
        CachedIs(cards, ids, limit, symbols, owner, SymbolSet, ms);
        return symbols[card.key];
      }
      Met(cards, ids, limit, tokens, owner, TitleWords(tok), ms);
      Met(cards, ids, limit, symbols, owner, SymbolSet, ms);
      r := SymbolSet(card);
      owner := owner[card.key := ms];
      FeatureStored(cards, limit, symbols, owner, SymbolSet, card.key);
      symbols := symbols[card.key := r];
    }

    /** `_should_fuse` with cached features decides as it does without. */
    method ShouldFuseCached(tok: Tokenizer, a: Card, b: Card, ghost cards: seq<Card>, ghost ids: seq<nat>,
                            ghost ma: seq<nat>, ghost mb: seq<nat>, ghost limit: Option<nat>) returns (fuse: bool)
      requires TopicCards(cards, ids) && Indices(cards, ma) && Indices(cards, mb)
      requires a == Fold(cards, ma, limit) && b == Fold(cards, mb, limit)
      requires Sound(tok, cards, limit)
      modifies this
      ensures Sound(tok, cards, limit) && fuse == ShouldFuse(tok, a, b)
    {
      if a.kind == "general" || b.kind == "general" || a.kind != b.kind {
        return false;
      }
      if Truthy(a.primarySymbol) && a.primarySymbol == b.primarySymbol {
        return true;
      }
      var sa := Symbols(tok, a, cards, ids, ma, limit);
      var sb := Symbols(tok, b, cards, ids, mb, limit);
      if |sa * sb| >= 2 {
        return true;
      }
      var ta := Tokens(tok, a, cards, ids, ma, limit);
      var tb := Tokens(tok, b, cards, ids, mb, limit);
      fuse := Overlap(ta, tb) >= 0.5;
    }
  }

  /** The inputs of kind `kind` below `n`, in order. */
  function Bucket(cards: seq<Card>, kind: string, n: nat): seq<nat>
    requires n <= |cards|
  {
    if n == 0 then [] else
      Bucket(cards, kind, n - 1) + if cards[n - 1].kind == kind then [n - 1] else []
  }

  lemma {:induction false} BucketFacts(cards: seq<Card>, kind: string, n: nat)
    requires n <= |cards|
    ensures var r := Bucket(cards, kind, n);
            && (forall x :: 0 <= x < |r| ==> r[x] < n && cards[r[x]].kind == kind)
            && (forall x, y :: 0 <= x < y < |r| ==> r[x] < r[y])
            && (forall j :: 0 <= j < n && cards[j].kind == kind ==> j in r)
  {
    if n > 0 { BucketFacts(cards, kind, n - 1); }
  }

  lemma {:induction false} FoldKind(cards: seq<Card>, ms: seq<nat>, limit: Option<nat>)
    requires Indices(cards, ms)
    ensures Fold(cards, ms, limit).kind == cards[ms[0]].kind
  {
    if |ms| > 1 { FoldKind(cards, ms[..|ms| - 1], limit); }
  }

  /** A stretch of inputs of other kinds changes nothing. */
  lemma SkipOtherKinds(tok: Tokenizer, limit: Option<nat>, cards: seq<Card>, i: nat, lo: nat, hi: nat, used: set<nat>)
    requires i < lo <= hi <= |cards|
    requires cards[i].kind == "general" || forall j :: lo <= j < hi ==> cards[j].kind != cards[i].kind
    ensures AbsorbTo(Rule(tok, limit, cards), i, hi, used) == AbsorbTo(Rule(tok, limit, cards), i, lo, used)
  {
    var rule := Rule(tok, limit, cards);
    forall ms, j: nat | lo <= j < hi && ms != [] && ms[0] == i && Proper(ms, hi) ensures !rule(ms, j) {
      FoldKind(cards, ms, limit);
    }
    AbsorbSkip(rule, i, lo, hi, used);
  }

  /** The inputs of kind `kind` that can fuse: none of the general kind. */
  function Fusible(cards: seq<Card>, kind: string, n: nat): seq<nat>
    requires n <= |cards|
  {
    if kind == "general" then [] else Bucket(cards, kind, n)
  }

  function BucketOf(buckets: map<string, seq<nat>>, kind: string): seq<nat> {
    if kind in buckets then buckets[kind] else []
  }

  /** The buckets hold the inputs of each kind that can fuse, in order. */
  ghost predicate BucketsRight(cards: seq<Card>, n: nat, buckets: map<string, seq<nat>>)
    requires n <= |cards|
  {
    forall kind: string :: BucketOf(buckets, kind) == Fusible(cards, kind, n)
  }

  lemma FusibleNext(cards: seq<Card>, kind: string, n: nat)
    requires n < |cards|
    ensures Fusible(cards, kind, n + 1) ==
            if kind == "general" || cards[n].kind != kind then Fusible(cards, kind, n) else Fusible(cards, kind, n) + [n]
  {
  }

  method AddToBucket(cards: seq<Card>, n: nat, buckets: map<string, seq<nat>>) returns (r: map<string, seq<nat>>)
    requires n < |cards| && BucketsRight(cards, n, buckets)
    ensures BucketsRight(cards, n + 1, r)
  {
    var kind := cards[n].kind;
    r := if kind == "general" then buckets else buckets[kind := BucketOf(buckets, kind) + [n]];
    forall k: string ensures BucketOf(r, k) == Fusible(cards, k, n + 1) {
      FusibleNext(cards, k, n);
      assert BucketOf(buckets, k) == Fusible(cards, k, n);
    }
  }

  lemma EmptyBuckets(cards: seq<Card>)
    ensures BucketsRight(cards, 0, map[])
  {
  }

  method BucketCards(cards: seq<Card>) returns (buckets: map<string, seq<nat>>)
    ensures BucketsRight(cards, |cards|, buckets)
  {
    buckets := map[];
    EmptyBuckets(cards);
    for n := 0 to |cards|
      invariant BucketsRight(cards, n, buckets)
    {
      buckets := AddToBucket(cards, n, buckets);
    }
  }

  /** The group of input `i` after the inputs below `hi`, and the card it has become. */
  ghost predicate Grown(tok: Tokenizer, limit: Option<nat>, cards: seq<Card>, i: nat, hi: nat, used0: set<nat>,
                        members: seq<nat>, used: set<nat>, current: Card) {
    && i < hi <= |cards| && Indices(cards, members) && current == Fold(cards, members, limit)
    && Absorbed(members, used) == AbsorbTo(Rule(tok, limit, cards), i, hi, used0)
  }

  /** One comparison of the inner loop, with the next input of the opener's kind. */
  method TryAbsorb(tok: Tokenizer, limit: Option<nat>, cards: seq<Card>, ghost ids: seq<nat>, ghost i: nat, ghost hi: nat,
                   j: nat, current: Card, used: set<nat>, ghost used0: set<nat>, ghost members: seq<nat>,
                   features: FuseFeatureCache)
    returns (currentAfter: Card, usedAfter: set<nat>, ghost membersAfter: seq<nat>)
    requires TopicCards(cards, ids) && i < hi <= j < |cards| && features.Sound(tok, cards, limit)
    requires cards[i].kind == "general" || forall m :: hi <= m < j ==> cards[m].kind != cards[i].kind
    requires Grown(tok, limit, cards, i, hi, used0, members, used, current)
    modifies features
    ensures features.Sound(tok, cards, limit)
    ensures Grown(tok, limit, cards, i, j + 1, used0, membersAfter, usedAfter, currentAfter)
  {
    SkipOtherKinds(tok, limit, cards, i, hi, j, used0);
    currentAfter, usedAfter, membersAfter := current, used, members;
    if j !in used {
      var fuse := features.ShouldFuseCached(tok, current, cards[j], cards, ids, members, [j], limit);
      if fuse {
        currentAfter := MergeCards(current, cards[j], limit);
        assert (members + [j])[..|members|] == members;
        usedAfter, membersAfter := used + {j}, members + [j];
      }
    }
  }

  /** The invariant of the inner loop. */
  ghost predicate Comparing(tok: Tokenizer, limit: Option<nat>, cards: seq<Card>, bucket: seq<nat>, i: nat, x: nat, hi: nat,
                            used0: set<nat>, members: seq<nat>, used: set<nat>, current: Card) {
    Compared(cards, bucket, i, x, hi) && Grown(tok, limit, cards, i, hi, used0, members, used, current)
  }

  /** The next entry of the bucket. */
  method CompareNext(tok: Tokenizer, limit: Option<nat>, cards: seq<Card>, ghost ids: seq<nat>, bucket: seq<nat>, i: nat,
                     x: nat, ghost hi: nat, current: Card, used: set<nat>, ghost used0: set<nat>,
                     ghost members: seq<nat>, features: FuseFeatureCache)
    returns (currentAfter: Card, usedAfter: set<nat>, ghost membersAfter: seq<nat>, ghost hiAfter: nat)
    requires TopicCards(cards, ids) && features.Sound(tok, cards, limit)
    requires x < |bucket| && Comparing(tok, limit, cards, bucket, i, x, hi, used0, members, used, current)
    modifies features
    ensures features.Sound(tok, cards, limit)
    ensures Comparing(tok, limit, cards, bucket, i, x + 1, hiAfter, used0, membersAfter, usedAfter, currentAfter)
  {
    currentAfter, usedAfter, membersAfter, hiAfter := current, used, members, hi;
    var j := bucket[x];
    if j > i {
      NoneBetween(cards, bucket, i, x, hi);
      EntryCompared(cards, bucket, i, x, hi);
      currentAfter, usedAfter, membersAfter :=
        TryAbsorb(tok, limit, cards, ids, i, hi, j, current, used, used0, members, features);
      hiAfter := j + 1;
    } else {
      EarlierSkipped(cards, bucket, i, x, hi);
    }
  }

  lemma EarlierSkipped(cards: seq<Card>, bucket: seq<nat>, i: nat, x: nat, hi: nat)
    requires Compared(cards, bucket, i, x, hi) && x < |bucket| && bucket[x] <= i
    ensures Compared(cards, bucket, i, x + 1, hi)
  {
  }

  /** The inner loop: input `i` against the later inputs of its bucket. */
  method Absorb(tok: Tokenizer, limit: Option<nat>, cards: seq<Card>, ghost ids: seq<nat>, bucket: seq<nat>,
                i: nat, used: set<nat>, features: FuseFeatureCache)
    returns (current: Card, usedAfter: set<nat>, ghost members: seq<nat>)
    requires TopicCards(cards, ids) && i < |cards| && features.Sound(tok, cards, limit)
    requires bucket == Fusible(cards, cards[i].kind, |cards|)
    modifies features
    ensures features.Sound(tok, cards, limit)
    ensures Grown(tok, limit, cards, i, |cards|, used, members, usedAfter, current)
  {
    current, usedAfter, members := cards[i], used, [i];
    ghost var hi: nat := i + 1;
    NothingCompared(tok, limit, cards, bucket, i, used);
    var x: nat := 0;
    while x < |bucket|
      invariant 0 <= x <= |bucket| && features.Sound(tok, cards, limit)
      invariant Comparing(tok, limit, cards, bucket, i, x, hi, used, members, usedAfter, current)
    {
      current, usedAfter, members, hi :=
        CompareNext(tok, limit, cards, ids, bucket, i, x, hi, current, usedAfter, used, members, features);
      x := x + 1;
    }
    AllCompared(tok, limit, cards, bucket, i, hi, used, members, usedAfter, current);
  }

  lemma NothingCompared(tok: Tokenizer, limit: Option<nat>, cards: seq<Card>, bucket: seq<nat>, i: nat, used: set<nat>)
    requires i < |cards|
    requires bucket == Fusible(cards, cards[i].kind, |cards|)
    ensures Compared(cards, bucket, i, 0, i + 1)
    ensures Grown(tok, limit, cards, i, i + 1, used, [i], used, cards[i])
  {
  }

  lemma AllCompared(tok: Tokenizer, limit: Option<nat>, cards: seq<Card>, bucket: seq<nat>, i: nat, hi: nat,
                    used0: set<nat>, members: seq<nat>, used: set<nat>, current: Card)
    requires Compared(cards, bucket, i, |bucket|, hi)
    requires Grown(tok, limit, cards, i, hi, used0, members, used, current)
    ensures Grown(tok, limit, cards, i, |cards|, used0, members, used, current)
  {
    NoneAfter(cards, bucket, i, hi);
    SkipOtherKinds(tok, limit, cards, i, hi, |cards|, used0);
  }

  /** Where the inner loop stands: the first `x` entries of the bucket are below `hi`, the rest not. */
  ghost predicate Compared(cards: seq<Card>, bucket: seq<nat>, i: nat, x: nat, hi: nat) {
    && x <= |bucket| && i < hi <= |cards|
    && bucket == Fusible(cards, cards[i].kind, |cards|)
    && (forall y :: 0 <= y < x ==> bucket[y] < hi)
    && (forall y :: x <= y < |bucket| && bucket[y] > i ==> hi <= bucket[y])
  }

  lemma NoneBetween(cards: seq<Card>, bucket: seq<nat>, i: nat, x: nat, hi: nat)
    requires Compared(cards, bucket, i, x, hi) && x < |bucket| && bucket[x] > i
    ensures hi <= bucket[x] < |cards| && forall j :: hi <= j < bucket[x] ==> cards[j].kind != cards[i].kind
  {
    BucketFacts(cards, cards[i].kind, |cards|);
    forall j | hi <= j < bucket[x] ensures j !in bucket {
      forall y | 0 <= y < |bucket| ensures bucket[y] != j { }
    }
  }

  lemma EntryCompared(cards: seq<Card>, bucket: seq<nat>, i: nat, x: nat, hi: nat)
    requires Compared(cards, bucket, i, x, hi) && x < |bucket| && bucket[x] > i
    ensures bucket[x] < |cards| && Compared(cards, bucket, i, x + 1, bucket[x] + 1)
  {
    BucketFacts(cards, cards[i].kind, |cards|);
  }

  lemma NoneAfter(cards: seq<Card>, bucket: seq<nat>, i: nat, hi: nat)
    requires Compared(cards, bucket, i, |bucket|, hi)
    ensures cards[i].kind == "general" || forall j :: hi <= j < |cards| ==> cards[j].kind != cards[i].kind
  {
    BucketFacts(cards, cards[i].kind, |cards|);
    assert forall j :: j in bucket ==> j < hi;
  }

  /** The outer loop: after `n` rounds. */
  ghost predicate FusedTo(tok: Tokenizer, limit: Option<nat>, cards: seq<Card>, n: nat, groups: seq<seq<nat>>,
                          used: set<nat>, result: seq<Card>)
    requires n <= |cards|
  {
    && Grouping(groups, used) == GroupsTo(Rule(tok, limit, cards), n, |cards|)
    && AllIndices(cards, groups) && result == Folds(cards, groups, limit)
  }

  lemma RoundAdds(tok: Tokenizer, limit: Option<nat>, cards: seq<Card>, n: nat, groups: seq<seq<nat>>, used: set<nat>,
                  result: seq<Card>, members: seq<nat>, usedAfter: set<nat>, current: Card)
    requires n < |cards| && n !in used && FusedTo(tok, limit, cards, n, groups, used, result)
    requires Grown(tok, limit, cards, n, |cards|, used, members, usedAfter, current)
    ensures FusedTo(tok, limit, cards, n + 1, groups + [members], usedAfter, result + [current])
  {
    FoldsAppend(cards, groups, members, limit);
  }

  lemma RoundSkips(tok: Tokenizer, limit: Option<nat>, cards: seq<Card>, n: nat, groups: seq<seq<nat>>, used: set<nat>,
                   result: seq<Card>)
    requires n < |cards| && n in used && FusedTo(tok, limit, cards, n, groups, used, result)
    ensures FusedTo(tok, limit, cards, n + 1, groups, used, result)
  {
  }

  /** One round of the outer loop. */
  method FuseRound(tok: Tokenizer, limit: Option<nat>, cards: seq<Card>, ghost ids: seq<nat>, buckets: map<string, seq<nat>>,
                   i: nat, result: seq<Card>, used: set<nat>, ghost groups: seq<seq<nat>>, features: FuseFeatureCache)
    returns (resultAfter: seq<Card>, usedAfter: set<nat>, ghost groupsAfter: seq<seq<nat>>)
    requires TopicCards(cards, ids) && BucketsRight(cards, |cards|, buckets) && features.Sound(tok, cards, limit)
    requires i < |cards| && FusedTo(tok, limit, cards, i, groups, used, result)
    modifies features
    ensures features.Sound(tok, cards, limit)
    ensures FusedTo(tok, limit, cards, i + 1, groupsAfter, usedAfter, resultAfter)
  {
    if i in used {
      RoundSkips(tok, limit, cards, i, groups, used, result);
      return result, used, groups;
    }
    var bucket := BucketOf(buckets, cards[i].kind);
    var current, taken, members := Absorb(tok, limit, cards, ids, bucket, i, used, features);
    RoundAdds(tok, limit, cards, i, groups, used, result, members, taken, current);
    return result + [current], taken, groups + [members];
  }

  /** The bucketed scan with cached features returns exactly the list of the scan over all pairs. */
  method FuseEventCards(tok: Tokenizer, limit: Option<nat>, cards: seq<Card>, ghost ids: seq<nat>) returns (result: seq<Card>)
    requires TopicCards(cards, ids)
    ensures result == Fused(tok, limit, cards)
  {
    if |cards| <= 1 {
      FewCards(tok, limit, cards);
      return cards;
    }
    var buckets := BucketCards(cards);
    var features := new FuseFeatureCache();
    var used: set<nat> := {};
    result := [];
    ghost var groups: seq<seq<nat>> := [];
    NoRounds(tok, limit, cards);
    for i := 0 to |cards|
      invariant features.Sound(tok, cards, limit) && fresh(features)
      invariant FusedTo(tok, limit, cards, i, groups, used, result)
    {
      result, used, groups := FuseRound(tok, limit, cards, ids, buckets, i, result, used, groups, features);
    }
    AllRounds(tok, limit, cards, groups, used, result);
  }

  lemma AllRounds(tok: Tokenizer, limit: Option<nat>, cards: seq<Card>, groups: seq<seq<nat>>, used: set<nat>, result: seq<Card>)
    requires FusedTo(tok, limit, cards, |cards|, groups, used, result)
    ensures result == Fused(tok, limit, cards)
  {
    GroupsAreIndices(tok, limit, cards);
    assert groups == Groups(Rule(tok, limit, cards), |cards|);
  }

  lemma NoRounds(tok: Tokenizer, limit: Option<nat>, cards: seq<Card>)
    ensures FusedTo(tok, limit, cards, 0, [], {}, [])
  {
  }

  lemma FoldsAppend(cards: seq<Card>, groups: seq<seq<nat>>, ms: seq<nat>, limit: Option<nat>)
    requires AllIndices(cards, groups) && Indices(cards, ms)
    ensures AllIndices(cards, groups + [ms])
    ensures Folds(cards, groups + [ms], limit) == Folds(cards, groups, limit) + [Fold(cards, ms, limit)]
  {
    assert (groups + [ms])[..|groups|] == groups && (groups + [ms])[|groups|] == ms;
  }

  lemma FoldsOne(cards: seq<Card>, limit: Option<nat>)
    requires |cards| == 1
    ensures Folds(cards, [[0]], limit) == cards
  {
    FoldsSize(cards, [[0]], limit);
    FoldsAt(cards, [[0]], limit, 0);
  }

  lemma OneCard(tok: Tokenizer, limit: Option<nat>, cards: seq<Card>)
    requires |cards| == 1
    ensures Fused(tok, limit, cards) == cards
  {
    FewGroups(Rule(tok, limit, cards), 1);
    FoldsOne(cards, limit);
  }

  lemma NoCards(tok: Tokenizer, limit: Option<nat>)
    ensures Fused(tok, limit, []) == []
  {
    FewGroups(Rule(tok, limit, []), 0);
  }

  lemma FewCards(tok: Tokenizer, limit: Option<nat>, cards: seq<Card>)
    requires |cards| <= 1
    ensures Fused(tok, limit, cards) == cards
  {
    if |cards| == 1 { OneCard(tok, limit, cards); } else { NoCards(tok, limit); }
  }
}
