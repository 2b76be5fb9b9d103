/** Keys of fused cards: `fused-` in front for each merge, the topics of the merge behind. */
module FusionKeys {
  import opened Decimals
  import opened FusionCards

  function TopicKey(id: nat): string {
    "topic-" + ToText(id)
  }

  /** The key of the card that fuses the topics `ids`, in this order. */
  function KeyText(ids: seq<nat>): string
    requires ids != []
  {
    if |ids| == 1 then TopicKey(ids[0])
    else FusedKey(KeyText(ids[..|ids| - 1]), TopicKey(ids[|ids| - 1]))
  }

  lemma NumberHasNoDash(n: nat)
    ensures '-' !in ToText(n)
  {
    TextRoundTrip(n);
  }

  lemma FusedKeyInjective(a: string, m: nat, b: string, n: nat)
    requires FusedKey(a, TopicKey(m)) == FusedKey(b, TopicKey(n))
    ensures a == b && m == n
  {
    NumberHasNoDash(m);
    NumberHasNoDash(n);
    var p, q := "fused-" + a + "-topic", "fused-" + b + "-topic";
    assert FusedKey(a, TopicKey(m)) == p + ['-'] + ToText(m);
    assert FusedKey(b, TopicKey(n)) == q + ['-'] + ToText(n);
    SplitAtLastSeparator(p, ToText(m), q, ToText(n), '-');
    TextInjective(m, n);
    assert a == p[6..|p| - 6] && b == q[6..|q| - 6];
  }

  lemma TopicKeyInjective(m: nat, n: nat)
    requires TopicKey(m) == TopicKey(n)
    ensures m == n
  {
    assert TopicKey(m)[6..] == ToText(m) && TopicKey(n)[6..] == ToText(n);
    TextInjective(m, n);
  }

  /** A key names its topics, in order: no two fused cards can share one. */
  lemma {:induction false} KeyTextInjective(a: seq<nat>, b: seq<nat>)
    requires a != [] && b != [] && KeyText(a) == KeyText(b)
    ensures a == b
  {
    assert |a| == 1 <==> KeyText(a)[0] == 't';
    assert |b| == 1 <==> KeyText(b)[0] == 't';
    if |a| == 1 {
      TopicKeyInjective(a[0], b[0]);
    } else {
      var m, n := |a| - 1, |b| - 1;
      FusedKeyInjective(KeyText(a[..m]), a[m], KeyText(b[..n]), b[n]);
      KeyTextInjective(a[..m], b[..n]);
      assert a == a[..m] + [a[m]] && b == b[..n] + [b[n]];
    }
  }
}
