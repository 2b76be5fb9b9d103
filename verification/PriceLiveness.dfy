/** Whether a quote moves: a symbol is live on a market day once a price differs from the day's first. */
module PriceLiveness {
  import opened Prelude

  type DayKey = (string, int)  // symbol and market day

  datatype Tracker = Tracker(first: map<DayKey, real>, live: set<DayKey>)

  function Stale(first: map<DayKey, real>, symbol: string, day: int): set<DayKey> {
    set k | k in first && k.1 != day && k.0 == symbol
  }

  /** The tracker after an observation, and its verdict. */
  function Observed(t: Tracker, symbol: string, day: int, price: Option<real>): (Tracker, bool) {
    var key := (symbol, day);
    if price.None? then (t, false)
    else if key in t.live then (t, true)
    else if key !in t.first then
      var stale := Stale(t.first, symbol, day);
      (Tracker((t.first - stale)[key := price.value], t.live - stale), false)
    else if price.value != t.first[key] then (Tracker(t.first, t.live + {key}), true)
    else (t, false)
  }

  class PriceTracker {
    var first: map<DayKey, real>
    var live: set<DayKey>

    constructor ()
      ensures View() == Tracker(map[], {})
    {
      first, live := map[], {};
    }

    ghost function View(): Tracker
      reads this
    {
      Tracker(first, live)
    }

    method Observe(symbol: string, day: int, price: Option<real>) returns (moving: bool)
      modifies this
      ensures (View(), moving) == Observed(old(View()), symbol, day, price)
    {
      if price.None? {
        return false;
      }
      var key := (symbol, day);
      if key in live {
        return true;
      }
      if key !in first {
        var rest := Stale(first, symbol, day);
        ghost var stale := rest;
        while rest != {}
          invariant rest <= stale
          invariant first == old(first) - (stale - rest) && live == old(live) - (stale - rest)
          decreases rest
        {
          var k :| k in rest;
          first, live, rest := first - {k}, live - {k}, rest - {k};
        }
        assert stale - rest == stale;
        first := first[key := price.value];
        return false;
      }
      if price.value != first[key] {
        live := live + {key};
        return true;
      }
      moving := false;
    }
  }

  datatype Quote = Quote(symbol: string, day: int, price: Option<real>)

  function After(qs: seq<Quote>): Tracker {
    if qs == [] then Tracker(map[], {}) else
      var q := qs[|qs| - 1];
      Observed(After(qs[..|qs| - 1]), q.symbol, q.day, q.price).0
  }

  /** Market days of one symbol never go back. */
  ghost predicate DaysOnward(qs: seq<Quote>) {
    forall i, j :: 0 <= i < j < |qs| && qs[i].symbol == qs[j].symbol ==> qs[i].day <= qs[j].day
  }

  ghost predicate Seen(qs: seq<Quote>, key: DayKey, p: real) {
    exists i :: 0 <= i < |qs| && (qs[i].symbol, qs[i].day) == key && qs[i].price == Some(p)
  }

  ghost predicate TwoPrices(qs: seq<Quote>, key: DayKey) {
    exists p, q :: p != q && Seen(qs, key, p) && Seen(qs, key, q)
  }

  /** `day` is the latest day on which the symbol had a price. */
  ghost predicate Latest(qs: seq<Quote>, symbol: string, day: int) {
    && (exists p :: Seen(qs, (symbol, day), p))
    && forall i :: 0 <= i < |qs| && qs[i].symbol == symbol && qs[i].price.Some? ==> qs[i].day <= day
  }

  ghost predicate Tracks(qs: seq<Quote>, t: Tracker) {
    && (forall k :: k in t.first <==> Latest(qs, k.0, k.1))
    && (forall k :: k in t.first ==> Seen(qs, k, t.first[k]))
    && (forall k :: k in t.live <==> k in t.first && TwoPrices(qs, k))
  }

  lemma SeenStep(qs: seq<Quote>, q: Quote, key: DayKey, p: real)
    ensures Seen(qs + [q], key, p) <==> Seen(qs, key, p) || ((q.symbol, q.day) == key && q.price == Some(p))
  {
    var all := qs + [q];
    if Seen(qs, key, p) {
      var i :| 0 <= i < |qs| && (qs[i].symbol, qs[i].day) == key && qs[i].price == Some(p);
      assert all[i] == qs[i];
    }
    if (q.symbol, q.day) == key && q.price == Some(p) { assert all[|qs|] == q; }
  }

  lemma TwoPricesStep(qs: seq<Quote>, q: Quote, k: DayKey)
    ensures TwoPrices(qs + [q], k) <==>
      TwoPrices(qs, k) || (k == (q.symbol, q.day) && q.price.Some? && exists p :: p != q.price.value && Seen(qs, k, p))
  {
    var all := qs + [q];
    forall p ensures Seen(all, k, p) <==> Seen(qs, k, p) || ((q.symbol, q.day) == k && q.price == Some(p)) {
      SeenStep(qs, q, k, p);
    }
    if k == (q.symbol, q.day) && q.price.Some? { assert Seen(all, k, q.price.value); }
    if TwoPrices(qs, k) {
      var p, r :| p != r && Seen(qs, k, p) && Seen(qs, k, r);
      assert Seen(all, k, p) && Seen(all, k, r);
    }
  }

  /** The price that the tracker holds for a day decides whether one more price makes two. */
  lemma SecondPrice(qs: seq<Quote>, q: Quote, t: Tracker)
    requires Tracks(qs, t) && q.price.Some? && (q.symbol, q.day) in t.first
    ensures TwoPrices(qs + [q], (q.symbol, q.day)) <==>
      (q.symbol, q.day) in t.live || q.price.value != t.first[(q.symbol, q.day)]
  {
    var key := (q.symbol, q.day);
    TwoPricesStep(qs, q, key);
    assert Seen(qs, key, t.first[key]);
    assert key !in t.live ==> forall p :: Seen(qs, key, p) ==> p == t.first[key];
  }

  lemma UntrackedIsFirst(qs: seq<Quote>, q: Quote, t: Tracker)
    requires DaysOnward(qs + [q]) && Tracks(qs, t) && (q.symbol, q.day) !in t.first
    ensures !TwoPrices(qs + [q], (q.symbol, q.day))
  {
    var key := (q.symbol, q.day);
    TwoPricesStep(qs, q, key);
    forall i | 0 <= i < |qs| && qs[i].symbol == q.symbol ensures qs[i].day <= q.day {
      assert (qs + [q])[i] == qs[i] && (qs + [q])[|qs|] == q;
    }
    assert !Latest(qs, key.0, key.1);
    assert forall p :: !Seen(qs, key, p);
  }

  lemma TracksStep(qs: seq<Quote>, q: Quote, t: Tracker)
    requires DaysOnward(qs + [q]) && Tracks(qs, t)
    ensures Tracks(qs + [q], Observed(t, q.symbol, q.day, q.price).0)
    ensures Observed(t, q.symbol, q.day, q.price).1 <==> q.price.Some? && TwoPrices(qs + [q], (q.symbol, q.day))
  {
    var all := qs + [q];
    var key := (q.symbol, q.day);
    var after := Observed(t, q.symbol, q.day, q.price).0;
    if key in t.first && q.price.Some? { SecondPrice(qs, q, t); }
    if key !in t.first { UntrackedIsFirst(qs, q, t); }
    forall k: DayKey
      ensures k in after.first <==> Latest(all, k.0, k.1)
      ensures k in after.first ==> Seen(all, k, after.first[k])
      ensures k in after.live <==> k in after.first && TwoPrices(all, k)
    {
      LatestStep(qs, q, k.0, k.1);
      TwoPricesStep(qs, q, k);
      if k in after.first { SeenStep(qs, q, k, after.first[k]); }
      OneTracked(qs, t, k, key);
    }
  }

  lemma OneTracked(qs: seq<Quote>, t: Tracker, a: DayKey, b: DayKey)
    requires Tracks(qs, t)
    ensures a in t.first && b in t.first && a.0 == b.0 ==> a == b
  {
    if a in t.first && b in t.first && a.0 == b.0 {
      OneLatest(qs, a.0, a.1, b.1);
    }
  }

  lemma LatestStep(qs: seq<Quote>, q: Quote, s: string, d: int)
    requires DaysOnward(qs + [q])
    ensures Latest(qs + [q], s, d) <==> if q.price.Some? && s == q.symbol then d == q.day else Latest(qs, s, d)
  {
    var all := qs + [q];
    assert forall i :: 0 <= i < |qs| ==> all[i] == qs[i];
    assert all[|qs|] == q;
    forall p ensures Seen(all, (s, d), p) <==> Seen(qs, (s, d), p) || ((q.symbol, q.day) == (s, d) && q.price == Some(p)) {
      SeenStep(qs, q, (s, d), p);
    }
    if q.price.Some? && s == q.symbol {
      if d == q.day { assert Seen(all, (s, d), q.price.value); }
      if Latest(all, s, d) {
        var p :| Seen(all, (s, d), p);
        var i :| 0 <= i < |all| && (all[i].symbol, all[i].day) == (s, d) && all[i].price == Some(p);
      }
    }
  }

  /** A quote is reported moving exactly when the symbol has shown two different prices that day; nothing
      is kept but the latest day of each symbol. So a frozen quote never raises a price alert. */
  lemma {:induction false} MovingIffTwoPrices(qs: seq<Quote>)
    requires qs != [] && DaysOnward(qs)
    ensures var q := qs[|qs| - 1];
            Observed(After(qs[..|qs| - 1]), q.symbol, q.day, q.price).1
            <==> q.price.Some? && TwoPrices(qs, (q.symbol, q.day))
    ensures Tracks(qs, After(qs))
    ensures After(qs).live <= After(qs).first.Keys
    ensures forall a, b :: a in After(qs).first && b in After(qs).first && a.0 == b.0 ==> a == b
  {
    var n := |qs| - 1;
    assert qs == qs[..n] + [qs[n]];
    if n == 0 {
      assert qs[..0] == [];
      forall k: DayKey ensures !Latest([], k.0, k.1) {
      }
    } else {
      MovingIffTwoPrices(qs[..n]);
    }
    TracksStep(qs[..n], qs[n], After(qs[..n]));
    forall a, b | a in After(qs).first && b in After(qs).first && a.0 == b.0 ensures a == b {
      assert Latest(qs, a.0, a.1) && Latest(qs, b.0, b.1);
      OneLatest(qs, a.0, a.1, b.1);
    }
  }

  lemma OneLatest(qs: seq<Quote>, s: string, d: int, e: int)
    requires Latest(qs, s, d) && Latest(qs, s, e)
    ensures d == e
  {
    var p :| Seen(qs, (s, d), p);
    var r :| Seen(qs, (s, e), r);
  }
}
