/** Decimal text of natural numbers, as `str(n)` and `int(text)` treat it. The database keys that the
    components put into strings (temporary hashes, event keys, dedupe keys, cursors) all go through it. */
module Decimals {

  predicate IsDigit(c: char) {
    '0' <= c <= '9'
  }

  predicate AllDigits(s: string) {
    forall i :: 0 <= i < |s| ==> IsDigit(s[i])
  }

  function DigitChar(d: nat): char
    requires d < 10
  {
    ('0' as int + d) as char
  }

  function DigitValue(c: char): nat
    requires IsDigit(c)
  {
    c as int - '0' as int
  }

  function ToText(n: nat): string {
    if n < 10 then [DigitChar(n)] else ToText(n / 10) + [DigitChar(n % 10)]
  }

  function Parse(s: string): nat
    requires AllDigits(s)
  {
    if s == [] then 0 else 10 * Parse(s[..|s| - 1]) + DigitValue(s[|s| - 1])
  }

  lemma {:induction false} TextRoundTrip(n: nat)
    ensures AllDigits(ToText(n)) && ToText(n) != []
    ensures Parse(ToText(n)) == n
  {
    if n >= 10 {
      TextRoundTrip(n / 10);
      var s := ToText(n);
      assert s[..|s| - 1] == ToText(n / 10);
    }
  }

  lemma TextInjective(m: nat, n: nat)
    requires ToText(m) == ToText(n)
    ensures m == n
  {
    TextRoundTrip(m);
    TextRoundTrip(n);
  }

  /** `n` in exactly `width` digits, as the `%02d`-style fields of a timestamp are written. */
  function Padded(n: nat, width: nat): (s: string)
    ensures |s| == width && AllDigits(s)
    decreases width
  {
    if width == 0 then [] else Padded(n / 10, width - 1) + [DigitChar(n % 10)]
  }

  function Pow10(k: nat): (p: nat)
    ensures p >= 1
  {
    if k == 0 then 1 else 10 * Pow10(k - 1)
  }

  lemma {:induction false} PaddedRoundTrip(n: nat, width: nat)
    requires n < Pow10(width)
    ensures Parse(Padded(n, width)) == n
    decreases width
  {
    if width > 0 {
      PaddedRoundTrip(n / 10, width - 1);
      var s := Padded(n, width);
      assert s[..|s| - 1] == Padded(n / 10, width - 1);
    }
  }

  /** Text split at a separator that the first part cannot contain is split in one way only. */
  lemma SplitAtSeparator(a: string, x: string, b: string, y: string, sep: char)
    requires sep !in a && sep !in b
    requires a + [sep] + x == b + [sep] + y
    ensures a == b && x == y
  {
    var s, r := a + [sep] + x, b + [sep] + y;
    assert s[|a|] == sep && r[|b|] == sep;
    assert forall i :: 0 <= i < |a| ==> s[i] != sep;
    assert forall i :: 0 <= i < |b| ==> r[i] != sep;
    assert |a| == |b|;
    assert a == s[..|a|] && b == r[..|a|];
    assert x == s[|a| + 1..] && y == r[|a| + 1..];
  }

  /** The same from the other end: the part behind the last separator does not contain it. */
  lemma SplitAtLastSeparator(a: string, x: string, b: string, y: string, sep: char)
    requires sep !in x && sep !in y
    requires a + [sep] + x == b + [sep] + y
    ensures a == b && x == y
  {
    var s, r := a + [sep] + x, b + [sep] + y;
    assert s[|a|] == sep && r[|b|] == sep;
    assert forall i :: |a| < i < |s| ==> s[i] == x[i - |a| - 1];
    assert forall i :: |b| < i < |r| ==> r[i] == y[i - |b| - 1];
    assert |a| == |b|;
    assert a == s[..|a|] && b == r[..|a|];
    assert x == s[|a| + 1..] && y == r[|a| + 1..];
  }
}
