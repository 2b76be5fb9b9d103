/** The cache against the plain map "the last value set since the last clear, until it expires", over any
    history of calls on a clock that never goes back. */
module CacheHistory {
  import opened Prelude
  import opened Arithmetic
  import opened TtlCache

  datatype Op = Get(key: Key, now: int) | Set(key: Key, val: Val, now: int) | Clear

  datatype Setup = Setup(ttl: int, max: nat)

  function Apply(c: Setup, es: seq<Entry>, op: Op): seq<Entry> {
    match op
    case Get(key, now) => Looked(es, key, now).0
    case Set(key, val, now) => Stored(es, key, val, now + c.ttl, c.max)
    case Clear => []
  }

  function After(c: Setup, ops: seq<Op>): seq<Entry> {
    if ops == [] then [] else Apply(c, After(c, ops[..|ops| - 1]), ops[|ops| - 1])
  }

  /** The latest value set for the key since the last clear, with its expiry. */
  function Latest(c: Setup, ops: seq<Op>, key: Key): Option<(Val, int)> {
    if ops == [] then None else
      match ops[|ops| - 1]
      case Clear => None
      case Set(k, v, now) => if k == key then Some((v, now + c.ttl)) else Latest(c, ops[..|ops| - 1], key)
      case Get(_, _) => Latest(c, ops[..|ops| - 1], key)
  }

  /** The last call of the history uses this key: it sets it or finds it. */
  function Uses(c: Setup, ops: seq<Op>): Option<Key>
    requires ops != []
  {
    match ops[|ops| - 1]
    case Clear => None
    case Set(k, _, _) => Some(k)
    case Get(k, now) => if Looked(After(c, ops[..|ops| - 1]), k, now).1.Some? then Some(k) else None
  }

  /** The number of calls up to the latest use of the key. */
  function LastUse(c: Setup, ops: seq<Op>, key: Key): nat {
    if ops == [] then 0
    else if Uses(c, ops) == Some(key) then |ops|
    else LastUse(c, ops[..|ops| - 1], key)
  }

  /** The keys used after the first `from` calls. */
  function UsedAfter(c: Setup, ops: seq<Op>, from: nat): set<Key> {
    if |ops| <= from then {} else
      UsedAfter(c, ops[..|ops| - 1], from) + match Uses(c, ops) case None => {} case Some(k) => {k}
  }

  function Time(op: Op, before: int): int {
    match op case Get(_, now) => now case Set(_, _, now) => now case Clear => before
  }

  /** `t` is no earlier than any call, and the calls come in order of time. */
  ghost predicate InTime(ops: seq<Op>, t: int) {
    ops == [] || (Time(ops[|ops| - 1], t) <= t && InTime(ops[..|ops| - 1], Time(ops[|ops| - 1], t)))
  }

  ghost predicate DistinctKeys(es: seq<Entry>) {
    forall i, j :: 0 <= i < j < |es| ==> es[i].key != es[j].key
  }

  /** Every entry is the latest value of its key, and entries stand in the order of their latest use. */
  ghost predicate Faithful(c: Setup, ops: seq<Op>, es: seq<Entry>) {
    && DistinctKeys(es)
    && (forall i :: 0 <= i < |es| ==> Latest(c, ops, es[i].key) == Some((es[i].val, es[i].expire)))
    && InUseOrder(c, ops, es)
  }

  ghost predicate InUseOrder(c: Setup, ops: seq<Op>, es: seq<Entry>) {
    forall i, j :: 0 <= i < j < |es| ==> LastUse(c, ops, es[i].key) < LastUse(c, ops, es[j].key)
  }

  /** A value that is not in the cache has expired, or was crowded out by `max` other keys used since. */
  ghost predicate Excused(c: Setup, ops: seq<Op>, t: int, key: Key) {
    Latest(c, ops, key).Some? ==>
      Latest(c, ops, key).value.1 <= t || |UsedAfter(c, ops, LastUse(c, ops, key)) - {key}| >= c.max
  }

  ghost predicate Inv(c: Setup, ops: seq<Op>, t: int) {
    var es := After(c, ops);
    && |es| <= c.max && Faithful(c, ops, es)
    && forall key :: !Has(es, key) ==> Excused(c, ops, t, key)
  }

  lemma HasStep(es: seq<Entry>, key: Key)
    requires es != []
    ensures Has(es, key) <==> Has(es[..|es| - 1], key) || es[|es| - 1].key == key
  {
    var n := |es| - 1;
    if Has(es[..n], key) {
      var i :| 0 <= i < n && es[..n][i].key == key;
      assert es[i].key == key;
    }
    if Has(es, key) && es[n].key != key {
      var i :| 0 <= i < |es| && es[i].key == key;
      assert es[..n][i].key == key;
    }
  }

  lemma {:induction false} WithoutMembers(es: seq<Entry>, key: Key)
    ensures forall e :: e in Without(es, key) <==> e in es && e.key != key
    ensures !Has(es, key) ==> Without(es, key) == es
  {
    if es != [] {
      WithoutMembers(es[..|es| - 1], key);
      HasStep(es, key);
      assert es == es[..|es| - 1] + [es[|es| - 1]];
    }
  }

  lemma {:induction false} WithoutSize(es: seq<Entry>, key: Key)
    requires DistinctKeys(es)
    ensures |Without(es, key)| == if Has(es, key) then |es| - 1 else |es|
  {
    if es != [] {
      var n := |es| - 1;
      WithoutSize(es[..n], key);
      HasStep(es, key);
      assert forall i :: 0 <= i < n ==> es[..n][i].key != es[n].key;
    }
  }

  lemma {:induction false} WithoutDistinct(es: seq<Entry>, key: Key)
    requires DistinctKeys(es)
    ensures DistinctKeys(Without(es, key))
  {
    if es != [] {
      var n := |es| - 1;
      WithoutDistinct(es[..n], key);
      WithoutMembers(es[..n], key);
      var w := Without(es[..n], key);
      forall i | 0 <= i < |w| ensures w[i].key != es[n].key {
        assert w[i] in w;
        var j :| 0 <= j < n && es[..n][j] == w[i];
        assert es[j] == w[i];
      }
    }
  }

  lemma WithoutFacts(es: seq<Entry>, key: Key)
    requires DistinctKeys(es)
    ensures forall e :: e in Without(es, key) <==> e in es && e.key != key
    ensures DistinctKeys(Without(es, key))
    ensures |Without(es, key)| == if Has(es, key) then |es| - 1 else |es|
  {
    WithoutMembers(es, key);
    WithoutDistinct(es, key);
    WithoutSize(es, key);
  }

  lemma {:induction false} WithoutInUseOrder(c: Setup, ops: seq<Op>, es: seq<Entry>, key: Key)
    requires InUseOrder(c, ops, es)
    ensures InUseOrder(c, ops, Without(es, key))
  {
    if es != [] {
      var n := |es| - 1;
      WithoutInUseOrder(c, ops, es[..n], key);
      WithoutMembers(es[..n], key);
      var w := Without(es[..n], key);
      forall i | 0 <= i < |w| ensures LastUse(c, ops, w[i].key) < LastUse(c, ops, es[n].key) {
        assert w[i] in w;
        var j :| 0 <= j < n && es[..n][j] == w[i];
        assert es[j] == w[i];
      }
    }
  }

  /** Entries stay faithful when one is taken out. */
  lemma WithoutInOrder(c: Setup, ops: seq<Op>, es: seq<Entry>, key: Key)
    requires Faithful(c, ops, es)
    ensures Faithful(c, ops, Without(es, key))
  {
    WithoutDistinct(es, key);
    WithoutMembers(es, key);
    WithoutInUseOrder(c, ops, es, key);
    var w := Without(es, key);
    forall i | 0 <= i < |w| ensures Latest(c, ops, w[i].key) == Some((w[i].val, w[i].expire)) {
      assert w[i] in w;
      var j :| 0 <= j < |es| && es[j] == w[i];
    }
  }

  lemma {:induction false} LastUseBound(c: Setup, ops: seq<Op>, key: Key)
    ensures LastUse(c, ops, key) <= |ops|
  {
    if ops != [] { LastUseBound(c, ops[..|ops| - 1], key); }
  }

  lemma {:induction false} UsedLater(c: Setup, ops: seq<Op>, from: nat, key: Key)
    requires LastUse(c, ops, key) > from
    ensures key in UsedAfter(c, ops, from)
  {
    LastUseBound(c, ops, key);
    if Uses(c, ops) != Some(key) { UsedLater(c, ops[..|ops| - 1], from, key); }
  }

  ghost function Keys(es: seq<Entry>): set<Key> {
    set e | e in es :: e.key
  }

  lemma {:induction false} KeysSize(es: seq<Entry>)
    requires DistinctKeys(es)
    ensures |Keys(es)| == |es|
  {
    if es != [] {
      var n := |es| - 1;
      assert es == es[..n] + [es[n]];
      KeysSize(es[..n]);
      assert Keys(es) == Keys(es[..n]) + {es[n].key};
      assert es[n].key !in Keys(es[..n]);
    }
  }

  /** What one more call does to the history of a key it does not use. */
  lemma OtherKey(c: Setup, ops: seq<Op>, op: Op, key: Key)
    requires !op.Clear? && Uses(c, ops + [op]) != Some(key) && (op.Set? ==> op.key != key)
    ensures Latest(c, ops + [op], key) == Latest(c, ops, key) && LastUse(c, ops + [op], key) == LastUse(c, ops, key)
    ensures UsedAfter(c, ops, LastUse(c, ops, key)) <= UsedAfter(c, ops + [op], LastUse(c, ops, key))
  {
    assert (ops + [op])[..|ops|] == ops;
    LastUseBound(c, ops, key);
  }

  lemma ExcuseStays(c: Setup, ops: seq<Op>, op: Op, t: int, t': int, key: Key)
    requires !op.Clear? && Uses(c, ops + [op]) != Some(key) && (op.Set? ==> op.key != key)
    requires Excused(c, ops, t, key) && t <= t'
    ensures Excused(c, ops + [op], t', key)
  {
    OtherKey(c, ops, op, key);
    var a, b := UsedAfter(c, ops, LastUse(c, ops, key)), UsedAfter(c, ops + [op], LastUse(c, ops, key));
    SubsetSize(a - {key}, b - {key});
  }

  lemma FaithfulStays(c: Setup, ops: seq<Op>, op: Op, es: seq<Entry>)
    requires Faithful(c, ops, es) && !op.Clear?
    requires forall e :: e in es ==> Uses(c, ops + [op]) != Some(e.key) && (op.Set? ==> op.key != e.key)
    ensures Faithful(c, ops + [op], es)
  {
    forall i | 0 <= i < |es|
      ensures Latest(c, ops + [op], es[i].key) == Latest(c, ops, es[i].key)
      ensures LastUse(c, ops + [op], es[i].key) == LastUse(c, ops, es[i].key)
    {
      assert es[i] in es;
      OtherKey(c, ops, op, es[i].key);
    }
  }

  /** The used entry goes to the back. */
  lemma UsedToBack(c: Setup, ops: seq<Op>, op: Op, es: seq<Entry>, e: Entry)
    requires Faithful(c, ops, es) && !op.Clear? && op.key == e.key && Uses(c, ops + [op]) == Some(e.key)
    requires Latest(c, ops + [op], e.key) == Some((e.val, e.expire))
    ensures Faithful(c, ops + [op], Without(es, e.key) + [e])
  {
    var rest := Without(es, e.key);
    WithoutFacts(es, e.key);
    WithoutInOrder(c, ops, es, e.key);
    FaithfulStays(c, ops, op, rest);
    forall i | 0 <= i < |rest| ensures rest[i].key != e.key && LastUse(c, ops + [op], rest[i].key) < |ops| + 1 {
      assert rest[i] in rest;
      OtherKey(c, ops, op, rest[i].key);
      LastUseBound(c, ops, rest[i].key);
    }
  }

  lemma HasIff(es: seq<Entry>, key: Key)
    ensures Has(es, key) <==> key in Keys(es)
  {
    if Has(es, key) {
      var i :| 0 <= i < |es| && es[i].key == key;
      assert es[i] in es;
    }
  }

  lemma GetKeepsInv(c: Setup, ops: seq<Op>, key: Key, now: int, t: int)
    requires Inv(c, ops, t) && t <= now
    ensures Inv(c, ops + [Get(key, now)], now)
  {
    var op := Get(key, now);
    var all := ops + [op];
    var es := After(c, ops);
    assert all[..|ops|] == ops;
    var after := Looked(es, key, now).0;
    assert After(c, all) == after;
    WithoutFacts(es, key);
    if Has(es, key) {
      var e := Find(es, key);
      var i :| 0 <= i < |es| && es[i] == e;
      if now < e.expire {
        UsedToBack(c, ops, op, es, e);
      } else {
        WithoutInOrder(c, ops, es, key);
        FaithfulStays(c, ops, op, Without(es, key));
      }
    } else {
      forall e | e in es ensures e.key != key {
        var i :| 0 <= i < |es| && es[i] == e;
      }
      FaithfulStays(c, ops, op, es);
    }
    forall k | !Has(after, k) ensures Excused(c, all, now, k) {
      HasIff(es, k);
      HasIff(after, k);
      if Has(es, k) {
        // only the looked-up key can have gone, and only because it had expired
        assert k == key;
        OtherKey(c, ops, op, key);
      } else {
        ExcuseStays(c, ops, op, t, now, k);
      }
    }
  }

  /** A full cache gives up its front entry, and everything behind was used after it. */
  lemma EvictionIsExcused(c: Setup, ops: seq<Op>, es: seq<Entry>, t: int)
    requires c.max >= 1 && Faithful(c, ops, es) && |es| == c.max + 1
    ensures Excused(c, ops, t, es[0].key)
  {
    var key := es[0].key;
    var from := LastUse(c, ops, key);
    var rest := es[1..];
    KeysSize(rest);
    forall k | k in Keys(rest) ensures k in UsedAfter(c, ops, from) - {key} {
      var e :| e in rest && e.key == k;
      var i :| 0 <= i < |rest| && rest[i] == e;
      assert es[i + 1] == e;
      UsedLater(c, ops, from, k);
    }
    SubsetSize(Keys(rest), UsedAfter(c, ops, from) - {key});
  }

  lemma FirstOrLater(es: seq<Entry>, key: Key)
    requires Has(es, key)
    ensures es[0].key == key || Has(es[1..], key)
  {
    var i :| 0 <= i < |es| && es[i].key == key;
    if i > 0 { assert es[1..][i - 1] == es[i]; }
  }

  lemma SetKeepsInv(c: Setup, ops: seq<Op>, key: Key, val: Val, now: int, t: int)
    requires c.max >= 1 && Inv(c, ops, t) && t <= now
    ensures Inv(c, ops + [Set(key, val, now)], now)
  {
    var op := Set(key, val, now);
    var all := ops + [op];
    var es := After(c, ops);
    var e := Entry(key, val, now + c.ttl);
    assert all[..|ops|] == ops;
    var full := Without(es, key) + [e];
    var after := Evicted(full, c.max);
    assert After(c, all) == after;
    WithoutFacts(es, key);
    UsedToBack(c, ops, op, es, e);
    assert full[|full| - 1] == e;
    forall k | !Has(after, k) ensures Excused(c, all, now, k) {
      HasIff(es, k);
      HasIff(full, k);
      if Has(full, k) {
        assert |full| == c.max + 1 && after == full[1..];
        FirstOrLater(full, k);
        EvictionIsExcused(c, all, full, now);
      } else {
        assert e in full;
        ExcuseStays(c, ops, op, t, now, k);
      }
    }
  }

  lemma {:induction false} HistoryKeepsInv(c: Setup, ops: seq<Op>, t: int)
    requires c.max >= 1 && InTime(ops, t)
    ensures Inv(c, ops, t)
  {
    if ops != [] {
      var n := |ops| - 1;
      var now := Time(ops[n], t);
      assert ops == ops[..n] + [ops[n]];
      HistoryKeepsInv(c, ops[..n], now);
      match ops[n]
      case Get(key, _) => GetKeepsInv(c, ops[..n], key, now, now);
      case Set(key, val, _) => SetKeepsInv(c, ops[..n], key, val, now, now);
      case Clear =>
      Later(c, ops, now, t);
    }
  }

  lemma Later(c: Setup, ops: seq<Op>, t: int, t': int)
    requires Inv(c, ops, t) && t <= t'
    ensures Inv(c, ops, t')
  {
    forall key | !Has(After(c, ops), key) ensures Excused(c, ops, t', key) {
      assert Excused(c, ops, t, key);
    }
  }

  /** After any history: the cache is never over-full; a hit is the latest value set, not yet expired; and a
      latest value that has not expired is missed only after `max` other keys were used since its own use. */
  lemma CacheRefinesMap(c: Setup, ops: seq<Op>, key: Key, now: int)
    requires c.max >= 1 && InTime(ops, now)
    ensures |After(c, ops)| <= c.max
    ensures var r := Looked(After(c, ops), key, now).1;
            && (r.Some? ==> Latest(c, ops, key).Some? && Latest(c, ops, key).value.0 == r.value
                            && now < Latest(c, ops, key).value.1)
            && (r.None? && Latest(c, ops, key).Some? && now < Latest(c, ops, key).value.1 ==>
                  |UsedAfter(c, ops, LastUse(c, ops, key)) - {key}| >= c.max)
  {
    HistoryKeepsInv(c, ops, now);
    var es := After(c, ops);
    if Has(es, key) {
      var e := Find(es, key);
      var i :| 0 <= i < |es| && es[i] == e;
      assert Latest(c, ops, es[i].key) == Some((es[i].val, es[i].expire));
    } else {
      assert Excused(c, ops, now, key);
    }
  }
}
