/** The quantitative market sentiment: a weighted mean of piecewise linear component scores, over the inputs
    that are available. */
module MarketSentiment {
  import opened Prelude

  datatype BoardStats = BoardStats(advance: int, decline: int, flat: int)

  datatype Label = Panic | Fear | Neutral | Greed | GreedExtreme | Unknown

  /** A component score with its weight. */
  datatype Part = Part(weight: real, score: real)

  datatype Sentiment = Sentiment(score: Option<real>, verdict: Label)

  const WEIGHT_MOMENTUM := 0.6
  const WEIGHT_VIX := 0.25
  const WEIGHT_ADVANCE := 0.15

  function Lerp(v: real, x0: real, y0: real, x1: real, y1: real): real
    requires x0 != x1
  {
    y0 + (v - x0) * (y1 - y0) / (x1 - x0)
  }

  function MomentumScore(v: real): real {
    if v <= -2.0 then -1.0
    else if v >= 2.0 then 1.0
    else if v < -0.5 then Lerp(v, -2.0, -1.0, -0.5, -0.5)
    else if v <= 0.5 then Lerp(v, -0.5, -0.5, 0.5, 0.0)
    else Lerp(v, 0.5, 0.0, 2.0, 0.5)
  }

  function VixScore(v: real): real {
    if v >= 30.0 then -1.0
    else if v < 13.0 then 0.5
    else if v < 20.0 then Lerp(v, 13.0, 0.5, 20.0, 0.0)
    else Lerp(v, 20.0, 0.0, 30.0, -0.5)
  }

  function AdvanceScore(r: real): real {
    if r <= 0.3 then -0.5
    else if r >= 0.7 then 0.5
    else Lerp(r, 0.3, -0.5, 0.7, 0.5)
  }

  lemma Stretch(slope: real, a: real, b: real)
    requires a <= b
    ensures slope >= 0.0 ==> slope * a <= slope * b
    ensures slope <= 0.0 ==> slope * a >= slope * b
  {
    assert slope * (b - a) == slope * b - slope * a;
    assert slope >= 0.0 ==> slope * (b - a) >= 0.0;
    assert slope <= 0.0 ==> slope * (b - a) <= 0.0;
  }

  /** Momentum rises over all its pieces and jumps. */
  lemma MomentumRises(v: real, w: real)
    requires v <= w
    ensures -1.0 <= MomentumScore(v) <= MomentumScore(w) <= 1.0
  {
  }

  /** The volatility score falls over all its pieces and the jump at 30. */
  lemma VixFalls(v: real, w: real)
    requires v <= w
    ensures 0.5 >= VixScore(v) >= VixScore(w) >= -1.0
  {
  }

  lemma AdvanceRises(v: real, w: real)
    requires v <= w
    ensures -0.5 <= AdvanceScore(v) <= AdvanceScore(w) <= 0.5
  {
  }

  /** Momentum piece by piece: it climbs from -1 to -0.5, to 0 and to 0.5, and jumps to 1 at the top. */
  lemma MomentumPieces(v: real)
    ensures v <= -2.0 ==> MomentumScore(v) == -1.0
    ensures -2.0 <= v <= -0.5 ==> 3.0 * MomentumScore(v) == v - 1.0
    ensures -0.5 <= v <= 0.5 ==> 4.0 * MomentumScore(v) == 2.0 * v - 1.0
    ensures 0.5 <= v < 2.0 ==> 6.0 * MomentumScore(v) == 2.0 * v - 1.0
    ensures v >= 2.0 ==> MomentumScore(v) == 1.0
  {
  }

  /** Volatility: flat, two slopes that meet at 20, and a jump to -1 at 30. */
  lemma VixPieces(v: real)
    ensures v <= 13.0 ==> VixScore(v) == 0.5
    ensures 13.0 <= v <= 20.0 ==> 14.0 * VixScore(v) == 20.0 - v
    ensures 20.0 <= v < 30.0 ==> 20.0 * VixScore(v) == 20.0 - v
    ensures v >= 30.0 ==> VixScore(v) == -1.0
  {
  }

  /** The share of rising stocks: one slope between 30 and 70 percent. */
  lemma AdvancePieces(r: real)
    ensures r <= 0.3 ==> AdvanceScore(r) == -0.5
    ensures 0.3 <= r <= 0.7 ==> 2.0 * AdvanceScore(r) == 5.0 * r - 2.5
    ensures r >= 0.7 ==> AdvanceScore(r) == 0.5
  {
  }

  /** Each label is a range of scores. */
  lemma LabelRanges(s: real)
    ensures LabelFor(s) == Panic <==> s <= -0.6
    ensures LabelFor(s) == Fear <==> -0.6 < s <= -0.2
    ensures LabelFor(s) == Neutral <==> -0.2 < s <= 0.2
    ensures LabelFor(s) == Greed <==> 0.2 < s <= 0.6
    ensures LabelFor(s) == GreedExtreme <==> 0.6 < s
  {
  }

  function LabelFor(score: real): Label {
    if score <= -0.6 then Panic
    else if score <= -0.2 then Fear
    else if score <= 0.2 then Neutral
    else if score <= 0.6 then Greed
    else GreedExtreme
  }

  function Rank(l: Label): nat {
    match l
    case Panic => 0
    case Fear => 1
    case Neutral => 2
    case Greed => 3
    case GreedExtreme => 4
    case Unknown => 5
  }

  // ---------------------------------------------------------------- the weighted mean

  function Known(changes: seq<Option<real>>): seq<real> {
    if changes == [] then [] else
      Known(changes[..|changes| - 1]) + match changes[|changes| - 1] { case Some(c) => [c] case None => [] }
  }

  function Sum(xs: seq<real>): real {
    if xs == [] then 0.0 else Sum(xs[..|xs| - 1]) + xs[|xs| - 1]
  }

  function Mean(xs: seq<real>): Option<real> {
    if xs == [] then None else Some(Sum(xs) / (|xs| as real))
  }

  function AdvanceRatio(board: Option<BoardStats>): Option<real> {
    match board
    case None => None
    case Some(b) =>
      var total := b.advance + b.decline + b.flat;
      if total > 0 then Some(b.advance as real / total as real) else None
  }

  lemma {:induction false} KnownConcat(a: seq<Option<real>>, b: seq<Option<real>>)
    ensures Known(a + b) == Known(a) + Known(b)
  {
    if b == [] {
      assert a + b == a;
    } else {
      assert (a + b)[..|a + b| - 1] == a + b[..|b| - 1];
      KnownConcat(a, b[..|b| - 1]);
    }
  }

  lemma {:induction false} SumConcat(a: seq<real>, b: seq<real>)
    ensures Sum(a + b) == Sum(a) + Sum(b)
  {
    if b == [] {
      assert a + b == a;
    } else {
      assert (a + b)[..|a + b| - 1] == a + b[..|b| - 1];
      SumConcat(a, b[..|b| - 1]);
    }
  }

  lemma KnownInsert(a: seq<Option<real>>, x: Option<real>, b: seq<Option<real>>)
    ensures Known(a + [x] + b) == Known(a) + (if x.Some? then [x.value] else []) + Known(b)
    ensures Known(a + b) == Known(a) + Known(b)
  {
    assert [x][..0] == [] && Known([x]) == if x.Some? then [x.value] else [];
    KnownConcat(a, [x]);
    KnownConcat(a + [x], b);
    KnownConcat(a, b);
  }

  lemma SumInsert(p: seq<real>, v: real, q: seq<real>)
    ensures Sum(p + [v] + q) == Sum(p + q) + v
  {
    assert [v][..0] == [] && Sum([v]) == v;
    SumConcat(p, [v]);
    SumConcat(p + [v], q);
    SumConcat(p, q);
  }

  /** An index without a change does not count for the mean, wherever it stands. */
  lemma UnknownIsSkipped(a: seq<Option<real>>, b: seq<Option<real>>)
    ensures Mean(Known(a + [None] + b)) == Mean(Known(a + b))
  {
    KnownInsert(a, None, b);
    assert Known(a) + [] + Known(b) == Known(a) + Known(b);
  }

  /** And one with a change adds to the sum and to the number. */
  lemma KnownCounts(a: seq<Option<real>>, v: real, b: seq<Option<real>>)
    ensures var known := Known(a + b);
            Mean(Known(a + [Some(v)] + b)) == Some((Sum(known) + v) / ((|known| + 1) as real))
  {
    KnownInsert(a, Some(v), b);
    SumInsert(Known(a), v, Known(b));
    MeanIs(Known(a + [Some(v)] + b), |Known(a + b)| + 1, Sum(Known(a + b)) + v);
  }

  lemma MeanIs(xs: seq<real>, n: nat, sum: real)
    requires n > 0 && |xs| == n && Sum(xs) == sum
    ensures Mean(xs) == Some(sum / (n as real))
  {
  }

  /** The ratio is the rising stocks' share of all stocks, and unknown when there are none. */
  lemma RatioOfAll(b: BoardStats)
    ensures AdvanceRatio(None) == None
    ensures b.advance + b.decline + b.flat <= 0 <==> AdvanceRatio(Some(b)) == None
    ensures AdvanceRatio(Some(b)).Some? ==>
      AdvanceRatio(Some(b)).value * (b.advance as real + b.decline as real + b.flat as real) == b.advance as real
  {
  }

  function Parts(avg: Option<real>, vix: Option<real>, ratio: Option<real>): seq<Part> {
    (if avg.Some? then [Part(WEIGHT_MOMENTUM, MomentumScore(avg.value))] else [])
    + (if vix.Some? then [Part(WEIGHT_VIX, VixScore(vix.value))] else [])
    + (if ratio.Some? then [Part(WEIGHT_ADVANCE, AdvanceScore(ratio.value))] else [])
  }

  function Weight(parts: seq<Part>): real {
    if parts == [] then 0.0 else Weight(parts[..|parts| - 1]) + parts[|parts| - 1].weight
  }

  function Weighted(parts: seq<Part>): real {
    if parts == [] then 0.0 else
      Weighted(parts[..|parts| - 1]) + parts[|parts| - 1].weight * parts[|parts| - 1].score
  }

  predicate Positive(parts: seq<Part>) {
    forall i :: 0 <= i < |parts| ==> parts[i].weight > 0.0
  }

  lemma {:induction false} WeightPositive(parts: seq<Part>)
    requires Positive(parts)
    ensures Weight(parts) >= 0.0 && (parts != [] ==> Weight(parts) > 0.0)
  {
    if parts != [] { WeightPositive(parts[..|parts| - 1]); }
  }

  /** The weighted mean, with the weights that are there shared out again. */
  function Score(parts: seq<Part>): Option<real>
    requires Positive(parts)
  {
    if parts == [] then None else
      WeightPositive(parts);
      Some(Weighted(parts) / Weight(parts))
  }

  function LabelOf(score: Option<real>): Label {
    match score
    case None => Unknown
    case Some(s) => LabelFor(s)
  }

  /** `compute_market_sentiment` */
  function Compute(changes: seq<Option<real>>, vix: Option<real>, board: Option<BoardStats>): Sentiment {
    var score := Score(Parts(Mean(Known(changes)), vix, AdvanceRatio(board)));
    Sentiment(score, LabelOf(score))
  }

  ghost predicate Between(v: real, sum: real, lo: real, hi: real) {
    lo * v <= sum <= hi * v
  }

  lemma OneMore(v: real, sum: real, w: real, score: real, lo: real, hi: real)
    requires Between(v, sum, lo, hi) && w > 0.0 && lo <= score <= hi
    ensures Between(v + w, sum + w * score, lo, hi)
  {
    Stretch(w, lo, score);
    Stretch(w, score, hi);
  }

  predicate Within(parts: seq<Part>, lo: real, hi: real) {
    forall i :: 0 <= i < |parts| ==> parts[i].weight > 0.0 && lo <= parts[i].score <= hi
  }

  lemma {:induction false} WeightedWithin(parts: seq<Part>, lo: real, hi: real)
    requires Within(parts, lo, hi)
    ensures Between(Weight(parts), Weighted(parts), lo, hi)
  {
    if parts != [] {
      var front, last := parts[..|parts| - 1], parts[|parts| - 1];
      WeightedWithin(front, lo, hi);
      OneMore(Weight(front), Weighted(front), last.weight, last.score, lo, hi);
    }
  }

  lemma Divided(x: real, y: real, w: real)
    requires w > 0.0 && x <= y
    ensures x / w <= y / w
  {
    assert (y - x) / w >= 0.0;
  }

  lemma Cancelled(x: real, w: real)
    requires w > 0.0
    ensures x * w / w == x
  {
  }

  lemma Shared(x: real, weight: real, weighted: real)
    requires weight > 0.0 && weighted == weight * x
    ensures weighted / weight == x
  {
    Cancelled(x, weight);
    assert weighted == x * weight;
  }

  lemma WeightLast(ps: seq<Part>, p: Part)
    ensures Weight(ps + [p]) == Weight(ps) + p.weight && Weighted(ps + [p]) == Weighted(ps) + p.weight * p.score
  {
    assert (ps + [p])[..|ps|] == ps;
  }

  lemma OneSum(p: Part)
    ensures Weight([p]) == p.weight && Weighted([p]) == p.weight * p.score
  {
    assert [] + [p] == [p];
    WeightLast([], p);
  }

  lemma OnePart(p: Part)
    requires p.weight > 0.0
    ensures Positive([p]) && Score([p]) == Some(p.score)
  {
    OneSum(p);
    Shared(p.score, Weight([p]), Weighted([p]));
  }

  lemma TwoParts(p: Part, q: Part)
    requires p.weight > 0.0 && q.weight > 0.0
    ensures Positive([p, q])
    ensures Score([p, q]) == Some((p.weight * p.score + q.weight * q.score) / (p.weight + q.weight))
  {
    assert [] + [p] == [p] && [p] + [q] == [p, q];
    WeightLast([], p);
    WeightLast([p], q);
  }

  lemma ThreeParts(p: Part, q: Part, r: Part)
    ensures Weight([p, q, r]) == p.weight + q.weight + r.weight
    ensures Weighted([p, q, r]) == p.weight * p.score + q.weight * q.score + r.weight * r.score
  {
    assert [] + [p] == [p] && [p] + [q] == [p, q] && [p, q] + [r] == [p, q, r];
    WeightLast([], p);
    WeightLast([p], q);
    WeightLast([p, q], r);
  }

  /** A missing input cedes its weight: alone, a component is the score; with all of them the weights are 60,
      25 and 15 percent. */
  lemma WeightsShared(avg: real, vix: real, ratio: real)
    ensures Score(Parts(Some(avg), None, None)) == Some(MomentumScore(avg))
    ensures Score(Parts(None, Some(vix), None)) == Some(VixScore(vix))
    ensures Score(Parts(None, None, Some(ratio))) == Some(AdvanceScore(ratio))
    ensures Score(Parts(Some(avg), Some(vix), Some(ratio)))
         == Some(0.6 * MomentumScore(avg) + 0.25 * VixScore(vix) + 0.15 * AdvanceScore(ratio))
    ensures Score(Parts(Some(avg), Some(vix), None)) == Some((0.6 * MomentumScore(avg) + 0.25 * VixScore(vix)) / 0.85)
    ensures Score(Parts(Some(avg), None, Some(ratio))) == Some((0.6 * MomentumScore(avg) + 0.15 * AdvanceScore(ratio)) / 0.75)
    ensures Score(Parts(None, Some(vix), Some(ratio))) == Some((0.25 * VixScore(vix) + 0.15 * AdvanceScore(ratio)) / 0.4)
  {
    var p := Part(WEIGHT_MOMENTUM, MomentumScore(avg));
    var q := Part(WEIGHT_VIX, VixScore(vix));
    var r := Part(WEIGHT_ADVANCE, AdvanceScore(ratio));
    OnePart(p);
    OnePart(q);
    OnePart(r);
    assert Parts(Some(avg), None, None) == [p] && Parts(None, Some(vix), None) == [q] && Parts(None, None, Some(ratio)) == [r];
    assert Parts(Some(avg), Some(vix), Some(ratio)) == [p, q, r];
    ThreeParts(p, q, r);
    assert Weight([p, q, r]) == 1.0;
    assert Parts(Some(avg), Some(vix), None) == [p, q] && Parts(Some(avg), None, Some(ratio)) == [p, r]
        && Parts(None, Some(vix), Some(ratio)) == [q, r];
    TwoParts(p, q);
    TwoParts(p, r);
    TwoParts(q, r);
  }

  /** A weighted mean lies between the smallest and the largest component, whichever components there are. */
  lemma ScoreWithin(parts: seq<Part>, lo: real, hi: real)
    requires Positive(parts) && parts != []
    requires forall i :: 0 <= i < |parts| ==> lo <= parts[i].score <= hi
    ensures lo <= Score(parts).value <= hi
  {
    WeightPositive(parts);
    WeightedWithin(parts, lo, hi);
    var w := Weight(parts);
    Divided(lo * w, Weighted(parts), w);
    Divided(Weighted(parts), hi * w, w);
    Cancelled(lo, w);
    Cancelled(hi, w);
  }

  lemma PartsWithin(avg: Option<real>, vix: Option<real>, ratio: Option<real>)
    ensures forall i :: 0 <= i < |Parts(avg, vix, ratio)| ==> -1.0 <= Parts(avg, vix, ratio)[i].score <= 1.0
  {
    if avg.Some? { MomentumRises(avg.value, avg.value); }
    if vix.Some? { VixFalls(vix.value, vix.value); }
    if ratio.Some? { AdvanceRises(ratio.value, ratio.value); }
  }

  /** The score is between -1 and 1, and unknown exactly when no input is there. */
  lemma ScoreBounds(changes: seq<Option<real>>, vix: Option<real>, board: Option<BoardStats>)
    ensures var r := Compute(changes, vix, board);
            && (r.score.Some? ==> -1.0 <= r.score.value <= 1.0)
            && (r.score.None? <==> Known(changes) == [] && vix.None? && AdvanceRatio(board).None?)
            && (r.score.None? <==> r.verdict == Unknown)
  {
    ScoreOfParts(Mean(Known(changes)), vix, AdvanceRatio(board));
  }

  lemma ScoreOfParts(avg: Option<real>, vix: Option<real>, ratio: Option<real>)
    ensures var score := Score(Parts(avg, vix, ratio));
            && (score.Some? ==> -1.0 <= score.value <= 1.0)
            && (score.None? <==> avg.None? && vix.None? && ratio.None?)
  {
    PartsWithin(avg, vix, ratio);
    PartsThere(avg, vix, ratio);
    BoundedScore(Parts(avg, vix, ratio));
  }

  lemma PartsThere(avg: Option<real>, vix: Option<real>, ratio: Option<real>)
    ensures |Parts(avg, vix, ratio)| ==
      (if avg.Some? then 1 else 0) + (if vix.Some? then 1 else 0) + (if ratio.Some? then 1 else 0)
  {
  }

  lemma BoundedScore(parts: seq<Part>)
    requires Positive(parts) && forall i :: 0 <= i < |parts| ==> -1.0 <= parts[i].score <= 1.0
    ensures Score(parts).Some? <==> |parts| > 0
    ensures Score(parts).Some? ==> -1.0 <= Score(parts).value <= 1.0
  {
    if parts != [] { ScoreWithin(parts, -1.0, 1.0); }
  }

  // ---------------------------------------------------------------- order

  /** Both missing, or both there and in order. */
  predicate AtMost(a: Option<real>, b: Option<real>) {
    a.Some? == b.Some? && (a.Some? ==> a.value <= b.value)
  }

  predicate AllAtMost(a: seq<Option<real>>, b: seq<Option<real>>) {
    |a| == |b| && forall i :: 0 <= i < |a| ==> AtMost(a[i], b[i])
  }

  lemma SumLast(xs: seq<real>, x: real)
    ensures Sum(xs + [x]) == Sum(xs) + x
  {
    assert (xs + [x])[..|xs|] == xs;
  }

  lemma {:induction false} KnownOrder(a: seq<Option<real>>, b: seq<Option<real>>)
    requires AllAtMost(a, b)
    ensures |Known(a)| == |Known(b)| && Sum(Known(a)) <= Sum(Known(b))
  {
    if a != [] {
      var a', b', x, y := a[..|a| - 1], b[..|b| - 1], a[|a| - 1], b[|b| - 1];
      KnownOrder(a', b');
      assert AtMost(x, y);
      if x.Some? {
        SumLast(Known(a'), x.value);
        SumLast(Known(b'), y.value);
      } else {
        assert Known(a) == Known(a') && Known(b) == Known(b');
      }
    }
  }

  lemma MeanOrder(a: seq<Option<real>>, b: seq<Option<real>>)
    requires AllAtMost(a, b)
    ensures AtMost(Mean(Known(a)), Mean(Known(b)))
  {
    KnownOrder(a, b);
    if Known(a) != [] { Divided(Sum(Known(a)), Sum(Known(b)), |Known(a)| as real); }
  }

  predicate PartsAtMost(p: seq<Part>, q: seq<Part>) {
    |p| == |q| && forall i :: 0 <= i < |p| ==> p[i].weight == q[i].weight && p[i].score <= q[i].score
  }

  lemma {:induction false} WeightedOrder(p: seq<Part>, q: seq<Part>)
    requires PartsAtMost(p, q) && Positive(p)
    ensures Weight(p) == Weight(q) && Weighted(p) <= Weighted(q)
  {
    if p != [] {
      WeightedOrder(p[..|p| - 1], q[..|q| - 1]);
      Stretch(p[|p| - 1].weight, p[|p| - 1].score, q[|q| - 1].score);
    }
  }

  lemma PartsOrder(avg: Option<real>, vix: Option<real>, ratio: Option<real>,
                   avg': Option<real>, vix': Option<real>, ratio': Option<real>)
    requires AtMost(avg, avg') && AtMost(vix', vix) && AtMost(ratio, ratio')
    ensures PartsAtMost(Parts(avg, vix, ratio), Parts(avg', vix', ratio'))
  {
    if avg.Some? { MomentumRises(avg.value, avg'.value); }
    if vix.Some? { VixFalls(vix'.value, vix.value); }
    if ratio.Some? { AdvanceRises(ratio.value, ratio'.value); }
  }

  lemma MeanScoreOrder(p: seq<Part>, q: seq<Part>)
    requires PartsAtMost(p, q) && Positive(p) && Positive(q)
    ensures AtMost(Score(p), Score(q))
  {
    WeightedOrder(p, q);
    if p != [] {
      WeightPositive(p);
      Divided(Weighted(p), Weighted(q), Weight(p));
    }
  }

  /** With the same inputs present: raising any index change or the advance ratio, or lowering the volatility,
      never lowers the score nor makes the label gloomier. */
  lemma ScoreOrder(changes: seq<Option<real>>, vix: Option<real>, board: Option<BoardStats>,
                   changes': seq<Option<real>>, vix': Option<real>, board': Option<BoardStats>)
    requires AllAtMost(changes, changes') && AtMost(vix', vix) && AtMost(AdvanceRatio(board), AdvanceRatio(board'))
    ensures var r, r' := Compute(changes, vix, board), Compute(changes', vix', board');
            AtMost(r.score, r'.score) && Rank(r.verdict) <= Rank(r'.verdict)
  {
    var avg, avg', ratio, ratio' := Mean(Known(changes)), Mean(Known(changes')), AdvanceRatio(board), AdvanceRatio(board');
    MeanOrder(changes, changes');
    PartsOrder(avg, vix, ratio, avg', vix', ratio');
    MeanScoreOrder(Parts(avg, vix, ratio), Parts(avg', vix', ratio'));
  }
}
