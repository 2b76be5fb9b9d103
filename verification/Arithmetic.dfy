/** Powers of two, sizes and multiples that several components count with. */
module Arithmetic {

  function Pow2(n: nat): (r: nat)
    ensures r >= 1
  {
    if n == 0 then 1 else 2 * Pow2(n - 1)
  }

  lemma {:induction false} Pow2Monotone(m: nat, n: nat)
    requires m <= n
    ensures Pow2(m) <= Pow2(n)
  {
    if m < n { Pow2Monotone(m, n - 1); }
  }

  function AtLeastZero(n: int): nat {
    if n < 0 then 0 else n
  }

  lemma SubsetSize<T>(a: set<T>, b: set<T>)
    requires a <= b
    ensures |a| <= |b|
  {
    assert b == a + (b - a);
  }

  lemma {:induction false} NotNegative(a: int, b: int)
    requires a >= 0 && b >= 0
    ensures a * b >= 0
  {
  }

  lemma {:induction false} Distributes(a: int, b: int, w: int)
    ensures (a + b) * w == a * w + b * w
  {
  }

  lemma NextMultiple(x: int, y: int, w: int)
    requires x < y && w > 0
    ensures x * w + w <= y * w
  {
    NotNegative(y - x - 1, w);
    assert y == x + 1 + (y - x - 1);
    Distributes(x, 1 + (y - x - 1), w);
    Distributes(1, y - x - 1, w);
  }

  lemma Scaled(r: int, n: int, unit: int, s: int)
    requires 0 <= r < n && 0 <= s < unit
    ensures 0 <= r * unit + s < n * unit
  {
    NextMultiple(-1, r, unit);
    NextMultiple(r, n, unit);
  }

  lemma QuotientIs(x: int, d: int, q: int, r: int)
    requires 0 <= r < d && x == q * d + r
    ensures x / d == q
  {
    assert x == x / d * d + x % d;
    if x / d < q { NextMultiple(x / d, q, d); }
    if q < x / d { NextMultiple(q, x / d, d); }
  }

  /** The next multiple of `w` after `a` has been reached exactly if `b` lies between other multiples. */
  lemma LeftStretch(a: int, b: int, w: int)
    requires w > 0 && a <= b
    ensures a / w * w + w <= b <==> a / w * w != b / w * w
  {
    assert a == a / w * w + a % w && b == b / w * w + b % w;
    if a / w < b / w { NextMultiple(a / w, b / w, w); }
    if b / w < a / w { NextMultiple(b / w, a / w, w); }
  }

  lemma SameFactor(x: int, y: int, w: int)
    requires w > 0 && x * w == y * w
    ensures x == y
  {
    if x < y { NextMultiple(x, y, w); }
    if y < x { NextMultiple(y, x, w); }
  }

  lemma Regrouped(now: int, unit: int, n: int)
    requires unit > 0 && n > 0
    ensures n * unit > 0 && (now / unit - now / unit % n) * unit == now / (n * unit) * (n * unit)
  {
    var e := now / unit;
    var q, r := e / n, e % n;
    var s := now % unit;
    assert e == q * n + r && now == e * unit + s;
    Scaled(r, n, unit, s);
    assert now == q * (n * unit) + (r * unit + s);
    QuotientIs(now, n * unit, q, r * unit + s);
    assert (e - r) * unit == q * n * unit;
  }
}
