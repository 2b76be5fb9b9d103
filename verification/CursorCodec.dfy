/** The page cursor: `instant|id` in URL-safe Base64 (section 5 of RFC 4648) without its padding. */
module CursorCodec {
  import opened Prelude
  import opened Decimals
  import opened Calendar

  type Bytes = seq<nat>

  predicate AreBytes(s: Bytes) {
    forall i :: 0 <= i < |s| ==> s[i] < 256
  }

  function Symbol(v: nat): char
    requires v < 64
  {
    if v < 26 then ('A' as int + v) as char
    else if v < 52 then ('a' as int + v - 26) as char
    else if v < 62 then ('0' as int + v - 52) as char
    else if v == 62 then '-' else '_'
  }

  function Value(c: char): Option<nat> {
    if 'A' <= c <= 'Z' then Some(c as int - 'A' as int)
    else if 'a' <= c <= 'z' then Some(c as int - 'a' as int + 26)
    else if '0' <= c <= '9' then Some(c as int - '0' as int + 52)
    else if c == '-' then Some(62) else if c == '_' then Some(63) else None
  }

  /** The alphabet has these 64 characters and no other. */
  lemma ValueIff(c: char, v: nat)
    ensures Value(c) == Some(v) <==> v < 64 && Symbol(v) == c
  {
  }

  function Quad(x: nat, y: nat, z: nat): string
    requires x < 256 && y < 256 && z < 256
  {
    [Symbol(x / 4), Symbol(x % 4 * 16 + y / 16), Symbol(y % 16 * 4 + z / 64), Symbol(z % 64)]
  }

  /** The symbols of a byte string, without padding. */
  function Body(s: Bytes): string
    requires AreBytes(s)
  {
    if s == [] then []
    else if |s| == 1 then [Symbol(s[0] / 4), Symbol(s[0] % 4 * 16)]
    else if |s| == 2 then [Symbol(s[0] / 4), Symbol(s[0] % 4 * 16 + s[1] / 16), Symbol(s[1] % 16 * 4)]
    else Quad(s[0], s[1], s[2]) + Body(s[3..])
  }

  function Equals(n: nat): (s: string)
    ensures |s| == n && forall i :: 0 <= i < n ==> s[i] == '='
  {
    seq(n, _ => '=')
  }

  function PadLength(n: nat): nat {
    if n % 3 == 0 then 0 else 3 - n % 3
  }

  /** `urlsafe_b64encode`: the last group is filled up with "=". */
  function Encode64(s: Bytes): string
    requires AreBytes(s)
  {
    Body(s) + Equals(PadLength(|s|))
  }

  function StripEquals(t: string): string {
    if t != [] && t[|t| - 1] == '=' then StripEquals(t[..|t| - 1]) else t
  }

  /** Fills up to a multiple of four. */
  function PadTo4(t: string): string {
    t + Equals((4 - |t| % 4) % 4)
  }

  function Decode64(t: string): Option<Bytes> {
    if t == [] then Some([])
    else if |t| < 4 then None
    else
      var a, b := Value(t[0]), Value(t[1]);
      if a.None? || b.None? then None
      else if |t| == 4 && t[2] == '=' && t[3] == '=' then Some([a.value * 4 + b.value / 16])
      else
        var c := Value(t[2]);
        if c.None? then None
        else if |t| == 4 && t[3] == '=' then Some([a.value * 4 + b.value / 16, b.value % 16 * 16 + c.value / 4])
        else
          var d, rest := Value(t[3]), Decode64(t[4..]);
          if d.None? || rest.None? then None
          else Some([a.value * 4 + b.value / 16, b.value % 16 * 16 + c.value / 4, c.value % 4 * 64 + d.value]
                    + rest.value)
  }

  lemma SymbolFacts(v: nat)
    requires v < 64
    ensures Value(Symbol(v)) == Some(v) && Symbol(v) != '='
  {
  }

  lemma {:induction false} BodyLength(s: Bytes)
    requires AreBytes(s)
    ensures |Body(s)| == 4 * (|s| / 3) + if |s| % 3 == 0 then 0 else |s| % 3 + 1
  {
    if |s| >= 3 {
      BodyLength(s[3..]);
      var n := |s| - 3;
      assert |s| / 3 == n / 3 + 1 && |s| % 3 == n % 3;
      assert |Body(s)| == 4 + |Body(s[3..])|;
    }
  }

  predicate NoEquals(t: string) {
    forall i :: 0 <= i < |t| ==> t[i] != '='
  }

  lemma {:induction false} BodyNoEquals(s: Bytes)
    requires AreBytes(s)
    ensures NoEquals(Body(s))
  {
    forall v: nat | v < 64 ensures Symbol(v) != '=' {
      SymbolFacts(v);
    }
    if |s| >= 3 {
      BodyNoEquals(s[3..]);
      assert NoEquals(Quad(s[0], s[1], s[2])) && Body(s) == Quad(s[0], s[1], s[2]) + Body(s[3..]);
    }
  }

  lemma {:induction false} StripBody(t: string, n: nat)
    requires NoEquals(t)
    ensures StripEquals(t + Equals(n)) == t
  {
    if n == 0 {
      assert t + Equals(0) == t;
    } else {
      var u := t + Equals(n);
      assert u[..|u| - 1] == t + Equals(n - 1);
      StripBody(t, n - 1);
    }
  }

  /** Stripping the padding loses nothing: its length follows from the length of what is left. */
  lemma PaddingRestored(s: Bytes)
    requires AreBytes(s)
    ensures PadTo4(StripEquals(Encode64(s))) == Encode64(s)
  {
    BodyLength(s);
    BodyNoEquals(s);
    StripBody(Body(s), PadLength(|s|));
    PadFits(|s|, |Body(s)|);
  }

  lemma PadFits(n: nat, length: nat)
    requires length == 4 * (n / 3) + if n % 3 == 0 then 0 else n % 3 + 1
    ensures (4 - length % 4) % 4 == PadLength(n)
  {
  }

  lemma GroupRoundTrip(x: nat, y: nat, z: nat)
    requires x < 256 && y < 256 && z < 256
    ensures var a, b, c, d := x / 4, x % 4 * 16 + y / 16, y % 16 * 4 + z / 64, z % 64;
            && a < 64 && b < 64 && c < 64 && d < 64
            && a * 4 + b / 16 == x && b % 16 * 16 + c / 4 == y && c % 4 * 64 + d == z
  {
  }

  lemma ShortRoundTrip(s: Bytes)
    requires AreBytes(s) && 0 < |s| < 3
    ensures Decode64(Encode64(s)) == Some(s)
  {
    var y := if |s| == 2 then s[1] else 0;
    GroupRoundTrip(s[0], y, 0);
    SymbolFacts(s[0] / 4);
    SymbolFacts(s[0] % 4 * 16 + y / 16);
    SymbolFacts(y % 16 * 4);
    var t := Encode64(s);
    assert t[0] == Symbol(s[0] / 4) && t[1] == Symbol(s[0] % 4 * 16 + y / 16);
    assert |t| == 4 && t[3] == '=';
    if |s| == 1 {
      assert t[2] == '=' && s == [s[0]];
    } else {
      assert t[2] == Symbol(y % 16 * 4) && s == [s[0], s[1]];
    }
  }

  /** Four symbols in front of a text add their three bytes. */
  lemma FourDecode(a: nat, b: nat, c: nat, d: nat, t: string)
    requires a < 64 && b < 64 && c < 64 && d < 64
    requires |t| >= 4 && t[0] == Symbol(a) && t[1] == Symbol(b) && t[2] == Symbol(c) && t[3] == Symbol(d)
    requires Decode64(t[4..]).Some?
    ensures Decode64(t) == Some([a * 4 + b / 16, b % 16 * 16 + c / 4, c % 4 * 64 + d] + Decode64(t[4..]).value)
  {
    SymbolFacts(a);
    SymbolFacts(b);
    SymbolFacts(c);
    SymbolFacts(d);
  }

  lemma QuadDecodes(x: nat, y: nat, z: nat, rest: string)
    requires x < 256 && y < 256 && z < 256 && Decode64(rest).Some?
    ensures Decode64(Quad(x, y, z) + rest) == Some([x, y, z] + Decode64(rest).value)
  {
    GroupRoundTrip(x, y, z);
    var t := Quad(x, y, z) + rest;
    assert t[4..] == rest;
    FourDecode(x / 4, x % 4 * 16 + y / 16, y % 16 * 4 + z / 64, z % 64, t);
  }

  lemma EncodeGroup(s: Bytes)
    requires AreBytes(s) && |s| >= 3
    ensures Encode64(s) == Quad(s[0], s[1], s[2]) + Encode64(s[3..])
  {
    assert PadLength(|s|) == PadLength(|s| - 3);
    assert Body(s) == Quad(s[0], s[1], s[2]) + Body(s[3..]);
  }

  lemma GroupDecodes(s: Bytes, tail: Bytes, rest: string)
    requires AreBytes(s) && |s| >= 3 && tail == s[3..] && rest == Encode64(tail) && Decode64(rest) == Some(tail)
    ensures Decode64(Quad(s[0], s[1], s[2]) + rest) == Some(s)
  {
    QuadDecodes(s[0], s[1], s[2], rest);
    assert s == [s[0], s[1], s[2]] + tail;
  }

  lemma {:induction false} Base64RoundTrip(s: Bytes)
    requires AreBytes(s)
    ensures Decode64(Encode64(s)) == Some(s)
  {
    if s == [] {
      assert Encode64(s) == [];
    } else if |s| < 3 {
      ShortRoundTrip(s);
    } else {
      Base64RoundTrip(s[3..]);
      GroupDecodes(s, s[3..], Encode64(s[3..]));
      EncodeGroup(s);
    }
  }

  predicate Ascii(s: string) {
    forall i :: 0 <= i < |s| ==> s[i] as int < 128
  }

  /** UTF-8 of ASCII text. */
  function ToBytes(s: string): (r: Bytes)
    requires Ascii(s)
    ensures AreBytes(r) && |r| == |s| && forall i :: 0 <= i < |s| ==> r[i] == s[i] as int
  {
    seq(|s|, i requires 0 <= i < |s| => s[i] as int)
  }

  function FromBytes(r: Bytes): Option<string> {
    if forall i :: 0 <= i < |r| ==> r[i] < 128 then Some(seq(|r|, i requires 0 <= i < |r| => r[i] as char)) else None
  }

  /** Bytes are read as text exactly if they are ASCII text. */
  lemma FromBytesIff(r: Bytes, s: string)
    ensures FromBytes(r) == Some(s) <==> Ascii(s) && |r| == |s| && forall i :: 0 <= i < |r| ==> r[i] == s[i] as int
  {
    if Ascii(s) && |r| == |s| && forall i :: 0 <= i < |r| ==> r[i] == s[i] as int {
      assert FromBytes(r).Some? && FromBytes(r).value == s;
    }
  }

  function LastBar(s: string): (r: Option<nat>)
    ensures r.Some? ==> r.value < |s|
  {
    if s == [] then None
    else if s[|s| - 1] == '|' then Some(|s| - 1)
    else LastBar(s[..|s| - 1])
  }

  function CursorText(at: Option<DateTime>, id: nat): string {
    (if at.None? then "" else DateTimeText(at.value)) + ['|'] + ToText(id)
  }

  function EncodeCursor(at: Option<DateTime>, id: nat): string {
    CursorIsAscii(at, id);
    StripEquals(Encode64(ToBytes(CursorText(at, id))))
  }

  datatype Position = Position(at: Option<DateTime>, id: nat)

  datatype CursorError = BadCursor

  /** Splits at the last bar and reads both parts. */
  function ParseText(text: string): Result<Position, CursorError> {
    var bar := LastBar(text);
    if bar.None? then Err(BadCursor) else
      var stamp, number := text[..bar.value], text[bar.value + 1..];
      if number == "" || !AllDigits(number) then Err(BadCursor)
      else if stamp == "" then Ok(Position(None, Parse(number)))
      else match ParseDateTime(stamp)
        case None => Err(BadCursor)
        case Some(t) => Ok(Position(Some(t), Parse(number)))
  }

  /** Everything that makes the decoder raise is one error. */
  function DecodeCursor(cursor: string): Result<Position, CursorError> {
    match Decode64(PadTo4(cursor))
    case None => Err(BadCursor)
    case Some(bytes) =>
      match FromBytes(bytes)
      case None => Err(BadCursor)
      case Some(text) => ParseText(text)
  }

  lemma DigitsAreAscii(s: string)
    requires AllDigits(s)
    ensures Ascii(s) && '|' !in s
  {
  }

  lemma CursorIsAscii(at: Option<DateTime>, id: nat)
    ensures Ascii(CursorText(at, id))
  {
    TextRoundTrip(id);
    DigitsAreAscii(ToText(id));
    if at.Some? { DateTimeIsAscii(at.value); }
  }

  lemma DateTimeIsAscii(t: DateTime)
    ensures Ascii(DateTimeText(t))
  {
    var d := t.date;
    DigitsAreAscii(Padded(d.year, 4));
    DigitsAreAscii(Padded(d.month, 2));
    DigitsAreAscii(Padded(d.day, 2));
    assert Ascii(DateText(d));
    DigitsAreAscii(Padded(t.hour, 2));
    DigitsAreAscii(Padded(t.minute, 2));
    DigitsAreAscii(Padded(t.second, 2));
    DigitsAreAscii(Padded(t.micro, 6));
  }

  lemma {:induction false} LastBarFound(a: string, b: string)
    requires '|' !in b
    ensures LastBar(a + ['|'] + b) == Some(|a|)
  {
    var s := a + ['|'] + b;
    if b != [] {
      assert s[|s| - 1] == b[|b| - 1] && b[|b| - 1] in b;
      assert s[..|s| - 1] == a + ['|'] + b[..|b| - 1];
      LastBarFound(a, b[..|b| - 1]);
    }
  }

  lemma TextParsesBack(at: Option<DateTime>, id: nat)
    requires at.Some? ==> ValidDateTime(at.value)
    ensures ParseText(CursorText(at, id)) == Ok(Position(at, id))
  {
    var text := CursorText(at, id);
    var stamp := if at.None? then "" else DateTimeText(at.value);
    TextRoundTrip(id);
    DigitsAreAscii(ToText(id));
    LastBarFound(stamp, ToText(id));
    assert text[..|stamp|] == stamp && text[|stamp| + 1..] == ToText(id);
    ParsesAs(text, |stamp|, at, id);
  }

  lemma ParsesAs(text: string, bar: nat, at: Option<DateTime>, id: nat)
    requires LastBar(text) == Some(bar) && text[bar + 1..] == ToText(id)
    requires at.Some? ==> ValidDateTime(at.value)
    requires text[..bar] == if at.None? then "" else DateTimeText(at.value)
    ensures ParseText(text) == Ok(Position(at, id))
  {
    TextRoundTrip(id);
    if at.Some? { DateTimeRoundTrip(at.value); }
  }

  lemma BytesBackToText(s: string)
    requires Ascii(s)
    ensures FromBytes(ToBytes(s)) == Some(s)
  {
    var r := ToBytes(s);
    assert seq(|r|, i requires 0 <= i < |r| => r[i] as char) == s;
  }

  lemma CursorNotEmpty(s: Bytes)
    requires AreBytes(s) && s != []
    ensures StripEquals(Encode64(s)) != ""
  {
    BodyLength(s);
    BodyNoEquals(s);
    StripBody(Body(s), PadLength(|s|));
  }

  /** A cursor decodes to exactly the position it was made from, and is never the empty text that stands for
      no cursor. */
  lemma CursorRoundTrip(at: Option<DateTime>, id: nat)
    requires at.Some? ==> ValidDateTime(at.value)
    ensures DecodeCursor(EncodeCursor(at, id)) == Ok(Position(at, id))
    ensures EncodeCursor(at, id) != ""
  {
    CursorIsAscii(at, id);
    var bytes := ToBytes(CursorText(at, id));
    PaddingRestored(bytes);
    Base64RoundTrip(bytes);
    CursorNotEmpty(bytes);
    BytesBackToText(CursorText(at, id));
    TextParsesBack(at, id);
  }
}
