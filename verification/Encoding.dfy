/** UTF-8, decimal numbers and UUIDs as text, each with the proof that it loses nothing. */
module Encoding {
  newtype byte = x: int | 0 <= x < 256

  // -------------------------------------------------------------------- UTF-8

  function EncodeChar(c: char): seq<byte> {
    var n := c as int;
    if n < 0x80 then [n as byte]
    else if n < 0x800 then [(0xc0 + n / 0x40) as byte, (0x80 + n % 0x40) as byte]
    else if n < 0x10000
    then [(0xe0 + n / 0x1000) as byte, (0x80 + n / 0x40 % 0x40) as byte, (0x80 + n % 0x40) as byte]
    else [(0xf0 + n / 0x40000) as byte, (0x80 + n / 0x1000 % 0x40) as byte,
          (0x80 + n / 0x40 % 0x40) as byte, (0x80 + n % 0x40) as byte]
  }

  function Utf8(s: string): (bytes: seq<byte>)
    ensures |s| <= |bytes|
  {
    if s == "" then [] else EncodeChar(s[0]) + Utf8(s[1..])
  }

  /** The code point and the length of the first encoded character. */
  function DecodeFirst(bytes: seq<byte>): (int, nat)
    requires |bytes| >= 4 || (bytes != [] && bytes[0] < 0x80)
             || (|bytes| >= 2 && bytes[0] < 0xe0) || (|bytes| >= 3 && bytes[0] < 0xf0)
  {
    var b := bytes[0] as int;
    if b < 0x80 then (b, 1)
    else if b < 0xe0 then ((b - 0xc0) * 0x40 + (bytes[1] as int - 0x80), 2)
    else if b < 0xf0 then (((b - 0xe0) * 0x40 + (bytes[1] as int - 0x80)) * 0x40 + (bytes[2] as int - 0x80), 3)
    else
      ((((b - 0xf0) * 0x40 + (bytes[1] as int - 0x80)) * 0x40 + (bytes[2] as int - 0x80)) * 0x40
       + (bytes[3] as int - 0x80), 4)
  }

  lemma SixBits(n: nat)
    ensures n == n / 0x40 * 0x40 + n % 0x40
    ensures n / 0x40 == n / 0x1000 * 0x40 + n / 0x40 % 0x40
    ensures n / 0x1000 == n / 0x40000 * 0x40 + n / 0x1000 % 0x40
  {
  }

  lemma DecodeEncoded(c: char, rest: seq<byte>)
    ensures var e := EncodeChar(c) + rest;
            (|e| >= 4 || e[0] < 0x80 || (|e| >= 2 && e[0] < 0xe0) || (|e| >= 3 && e[0] < 0xf0))
            && DecodeFirst(e) == (c as int, |EncodeChar(c)|)
  {
    var n := c as int;
    var e := EncodeChar(c) + rest;
    SixBits(n);
    assert forall i :: 0 <= i < |EncodeChar(c)| ==> e[i] == EncodeChar(c)[i];
  }

  lemma {:induction false} Utf8Injective(a: string, b: string)
    requires Utf8(a) == Utf8(b)
    ensures a == b
  {
    if a == "" || b == "" {
      assert |a| <= |Utf8(a)| && |b| <= |Utf8(b)|;
    } else {
      var ea, eb := EncodeChar(a[0]), EncodeChar(b[0]);
      DecodeEncoded(a[0], Utf8(a[1..]));
      DecodeEncoded(b[0], Utf8(b[1..]));
      assert a[0] == b[0];
      assert Utf8(a)[|ea|..] == Utf8(a[1..]) && Utf8(b)[|eb|..] == Utf8(b[1..]);
      Utf8Injective(a[1..], b[1..]);
      assert a == [a[0]] + a[1..] && b == [b[0]] + b[1..];
    }
  }

  lemma {:induction false} Utf8Join(a: string, b: string)
    ensures Utf8(a + b) == Utf8(a) + Utf8(b)
  {
    hide EncodeChar;
    if a == "" {
      assert a + b == b;
    } else {
      Utf8Join(a[1..], b);
      assert (a + b)[1..] == a[1..] + b;
      Regrouped(EncodeChar(a[0]), Utf8(a[1..]), Utf8(b));
    }
  }

  lemma Regrouped(x: seq<byte>, y: seq<byte>, z: seq<byte>)
    ensures x + (y + z) == x + y + z
  {
  }

  predicate AsciiOnly(s: string) { forall i :: 0 <= i < |s| ==> s[i] as int < 0x80 }

  lemma {:induction false} AsciiLength(s: string)
    requires AsciiOnly(s)
    ensures |Utf8(s)| == |s|
  {
    if s != "" { AsciiLength(s[1..]); }
  }

  // ------------------------------------------------------------------ decimal

  const DIGITS := "0123456789"

  function Decimal(n: nat): (s: string)
    ensures s != ""
  {
    if n < 10 then [DIGITS[n]] else Decimal(n / 10) + [DIGITS[n % 10]]
  }

  function DecimalValue(s: string): int {
    if s == "" then 0
    else 10 * DecimalValue(s[..|s| - 1]) + (s[|s| - 1] as int - '0' as int)
  }

  lemma DigitValue(d: nat)
    requires d < 10
    ensures DIGITS[d] as int == '0' as int + d
  {
  }

  lemma {:induction false} DecimalRoundTrip(n: nat)
    ensures DecimalValue(Decimal(n)) == n
  {
    DigitValue(n % 10);
    var s := Decimal(n);
    if n < 10 {
      assert s[..0] == "";
    } else {
      DecimalRoundTrip(n / 10);
      assert s[..|s| - 1] == Decimal(n / 10);
    }
  }

  lemma DecimalInjective(m: nat, n: nat)
    ensures Decimal(m) == Decimal(n) <==> m == n
  {
    DecimalRoundTrip(m);
    DecimalRoundTrip(n);
  }

  predicate Digit(c: char) { '0' <= c <= '9' }

  /** A decimal text has digits only, and no leading zero but in "0" itself. */
  lemma {:induction false} DecimalDigits(n: nat)
    ensures forall i :: 0 <= i < |Decimal(n)| ==> Digit(Decimal(n)[i])
    ensures Decimal(n)[0] == '0' <==> n == 0
  {
    DigitValue(n % 10);
    if n >= 10 { DecimalDigits(n / 10); }
  }

  lemma {:induction false} DecimalShort(n: nat, digits: nat)
    requires digits >= 1 && n < Power10(digits)
    ensures |Decimal(n)| <= digits && AsciiOnly(Decimal(n))
  {
    DigitValue(n % 10);
    if n >= 10 { DecimalShort(n / 10, digits - 1); }
  }

  lemma U64Short(n: nat)
    requires n <= 0xffff_ffff_ffff_ffff
    ensures |Decimal(n)| <= 20
  {
    assert Power10(5) == 100_000;
    assert Power10(10) == 100_000 * Power10(5);
    assert Power10(15) == 100_000 * Power10(10);
    assert Power10(20) == 100_000 * Power10(15);
    DecimalShort(n, 20);
  }

  function Power10(k: nat): nat { if k == 0 then 1 else 10 * Power10(k - 1) }

  // -------------------------------------------------------------- identifiers

  /** `char::is_control`. */
  predicate Control(c: char) { c as int < 0x20 || 0x7f <= c as int < 0xa0 }

  predicate IdentifierChar(c: char) {
    'a' <= c <= 'z' || 'A' <= c <= 'Z' || '0' <= c <= '9' || c in "-_:."
  }

  /** Bounded identifiers of providers and peers. */
  predicate IdentifierOk(s: string) {
    1 <= |s| <= 255 && forall i :: 0 <= i < |s| ==> IdentifierChar(s[i])
  }

  // --------------------------------------------------------------------- UUID

  /** A UUID as its 32 hexadecimal digits. */
  type Uuid = u: seq<nat> | |u| == 32 && forall i :: 0 <= i < 32 ==> u[i] < 16
    witness seq(32, i => 0)

  predicate Nil(u: Uuid) { forall i :: 0 <= i < 32 ==> u[i] == 0 }

  function HexText(digits: seq<nat>): (s: string)
    requires forall i :: 0 <= i < |digits| ==> digits[i] < 16
    ensures |s| == |digits|
  {
    seq(|digits|, i requires 0 <= i < |digits| => "0123456789abcdef"[digits[i]])
  }

  function UuidText(u: Uuid): (s: string)
    ensures |s| == 36
  {
    HexText(u[..8]) + "-" + HexText(u[8..12]) + "-" + HexText(u[12..16]) + "-" + HexText(u[16..20]) + "-" + HexText(u[20..])
  }

  lemma HexTextInjective(a: seq<nat>, b: seq<nat>)
    requires forall i :: 0 <= i < |a| ==> a[i] < 16
    requires forall i :: 0 <= i < |b| ==> b[i] < 16
    requires HexText(a) == HexText(b)
    ensures a == b
  {
    assert |HexText(a)| == |a| && |HexText(b)| == |b|;
    forall i | 0 <= i < |a| ensures a[i] == b[i] {
      assert HexText(a)[i] == HexText(b)[i];
      HexDigitInjective(a[i], b[i]);
    }
  }

  lemma HexDigitInjective(a: nat, b: nat)
    requires a < 16 && b < 16 && "0123456789abcdef"[a] == "0123456789abcdef"[b]
    ensures a == b
  {
    assert forall i :: 0 <= i < 16 ==> "0123456789abcdef"[i] as int == if i < 10 then '0' as int + i else 'a' as int + i - 10;
  }

  lemma UuidTextInjective(u: Uuid, v: Uuid)
    ensures UuidText(u) == UuidText(v) <==> u == v
  {
    var s, t := UuidText(u), UuidText(v);
    if s == t {
      assert s[..8] == HexText(u[..8]) && t[..8] == HexText(v[..8]);
      assert s[9..13] == HexText(u[8..12]) && t[9..13] == HexText(v[8..12]);
      assert s[14..18] == HexText(u[12..16]) && t[14..18] == HexText(v[12..16]);
      assert s[19..23] == HexText(u[16..20]) && t[19..23] == HexText(v[16..20]);
      assert s[24..] == HexText(u[20..]) && t[24..] == HexText(v[20..]);
      HexTextInjective(u[..8], v[..8]);
      HexTextInjective(u[8..12], v[8..12]);
      HexTextInjective(u[12..16], v[12..16]);
      HexTextInjective(u[16..20], v[16..20]);
      HexTextInjective(u[20..], v[20..]);
      assert u == u[..8] + u[8..12] + u[12..16] + u[16..20] + u[20..];
      assert v == v[..8] + v[8..12] + v[12..16] + v[16..20] + v[20..];
    }
  }

  /** The usual text: the digits in lower case, with dashes after 8, 12, 16 and 20. */
  lemma UuidTextExactly(u: Uuid, i: nat)
    requires i < 36
    ensures UuidText(u)[i] ==
            if i == 8 || i == 13 || i == 18 || i == 23 then '-'
            else
              var d := u[if i < 8 then i else if i < 13 then i - 1 else if i < 18 then i - 2 else if i < 23 then i - 3
                         else i - 4];
              ('0' as int + d + if d < 10 then 0 else 39) as char
  {
    assert forall d :: 0 <= d < 16 ==> "0123456789abcdef"[d] as int == '0' as int + d + if d < 10 then 0 else 39;
  }
}
