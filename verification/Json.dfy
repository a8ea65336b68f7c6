/** JSON values, their compact texts, and an independent reader of RFC 8259.
 *
 *  A `string` holds Unicode scalar values, as a Rust string does. A number is a 64-bit
 *  integer or, like every floating-point one, the text that `serde_json` writes for it,
 *  which has a fraction or an exponent.
 */
module Json {
  import opened Options
  import opened Encoding

  type Member = (string, Value)

  type Integer = n: int | -0x8000_0000_0000_0000 <= n <= 0xffff_ffff_ffff_ffff

  // --------------------------------------------------------- number grammar

  /** How many digits the text begins with. */
  function DigitRun(s: string): (n: nat)
    ensures n <= |s|
  {
    if s == "" || !Digit(s[0]) then 0 else 1 + DigitRun(s[1..])
  }

  /** The length of the integer part: a sign, and digits without a leading zero. */
  function IntegerPart(s: string): (r: Option<nat>)
    ensures r.Some? ==> 0 < r.value <= |s|
  {
    var sign := if s != "" && s[0] == '-' then 1 else 0;
    var run := DigitRun(s[sign..]);
    if run == 0 || (run > 1 && s[sign] == '0') then None else Some(sign + run)
  }

  /** The length of the fraction, if one follows. */
  function Fraction(s: string): (r: Option<nat>)
    ensures r.Some? ==> r.value <= |s|
  {
    if s == "" || s[0] != '.' then Some(0)
    else if DigitRun(s[1..]) == 0 then None
    else Some(1 + DigitRun(s[1..]))
  }

  /** The length of the exponent, if one follows. */
  function Exponent(s: string): (r: Option<nat>)
    ensures r.Some? ==> r.value <= |s|
  {
    if s == "" || s[0] !in "eE" then Some(0)
    else
      var sign := if |s| > 1 && (s[1] == '+' || s[1] == '-') then 2 else 1;
      if DigitRun(s[sign..]) == 0 then None else Some(sign + DigitRun(s[sign..]))
  }

  /** The length of fraction and exponent together. */
  function Tail(s: string): (r: Option<nat>)
    ensures r.Some? ==> r.value <= |s|
  {
    match Fraction(s)
    case None => None
    case Some(f) =>
      match Exponent(s[f..])
      case None => None
      case Some(e) => Some(f + e)
  }

  /** The text of a number with a fraction or an exponent. */
  predicate IsReal(s: string) {
    && IntegerPart(s).Some? && IntegerPart(s).value < |s|
    && Tail(s[IntegerPart(s).value..]) == Some(|s| - IntegerPart(s).value)
  }

  lemma OneHalf()
    ensures IsReal("0.5")
  {
    assert DigitRun("5") == 1 + DigitRun("5"[1..]);
    assert DigitRun("0.5") == 1 + DigitRun(".5") by { assert "0.5"[1..] == ".5"; }
    assert "0.5"[0..] == "0.5" && "0.5"[1..] == ".5" && ".5"[1..] == "5" && ".5"[2..] == "";
  }

  /** Nothing that follows could be more of a number. */
  predicate Ends(rest: string) { rest == "" || (!Digit(rest[0]) && rest[0] !in ".eE") }

  lemma {:induction false} RunAppend(x: string, rest: string)
    requires Ends(rest)
    ensures DigitRun(x + rest) == DigitRun(x)
  {
    if x == "" {
      assert x + rest == rest;
    } else {
      RunAppend(x[1..], rest);
      assert (x + rest)[1..] == x[1..] + rest;
    }
  }

  lemma IntegerAppend(x: string, rest: string)
    requires IntegerPart(x).Some? && Ends(rest)
    ensures IntegerPart(x + rest) == IntegerPart(x)
  {
    var sign := if x[0] == '-' then 1 else 0;
    assert (x + rest)[sign..] == x[sign..] + rest;
    RunAppend(x[sign..], rest);
    hide DigitRun;
  }

  lemma FractionAppend(x: string, rest: string)
    requires Fraction(x).Some? && Ends(rest)
    ensures Fraction(x + rest) == Fraction(x)
  {
    if x == "" {
      assert x + rest == rest;
    } else {
      assert (x + rest)[1..] == x[1..] + rest;
      RunAppend(x[1..], rest);
      hide DigitRun;
    }
  }

  lemma ExponentAppend(x: string, rest: string)
    requires Exponent(x).Some? && Ends(rest)
    ensures Exponent(x + rest) == Exponent(x)
  {
    if x == "" {
      assert x + rest == rest;
    } else if x[0] in "eE" {
      var sign := if |x| > 1 && (x[1] == '+' || x[1] == '-') then 2 else 1;
      assert (x + rest)[sign..] == x[sign..] + rest;
      RunAppend(x[sign..], rest);
      hide DigitRun;
      assert |x| > 1;
    }
  }

  lemma TailAppend(x: string, rest: string)
    requires Tail(x).Some? && Ends(rest)
    ensures Tail(x + rest) == Tail(x)
  {
    FractionAppend(x, rest);
    var f := Fraction(x).value;
    assert (x + rest)[f..] == x[f..] + rest;
    ExponentAppend(x[f..], rest);
    hide Fraction, Exponent;
  }

  /** The number at the front of a text is one by itself. */
  lemma RealFront(s: string, n: nat, m: nat)
    requires IntegerPart(s) == Some(n) && Tail(s[n..]) == Some(m) && m > 0
    ensures IsReal(s[..n + m])
  {
    IntegerTake(s, n, m);
    TailTake(s[n..], m);
    assert s[..n + m][n..] == s[n..][..m];
    hide IntegerPart, Tail;
  }

  lemma {:induction false} RunTake(s: string, k: nat)
    requires k <= |s|
    ensures DigitRun(s[..k]) == if DigitRun(s) <= k then DigitRun(s) else k
  {
    if k > 0 && Digit(s[0]) {
      RunTake(s[1..], k - 1);
      assert s[..k][1..] == s[1..][..k - 1];
    }
  }

  lemma IntegerTake(s: string, n: nat, m: nat)
    requires IntegerPart(s) == Some(n) && n + m <= |s|
    ensures IntegerPart(s[..n + m]) == Some(n)
  {
    var sign := if s[0] == '-' then 1 else 0;
    RunTake(s[sign..], n + m - sign);
    assert s[..n + m][sign..] == s[sign..][..n + m - sign];
    hide DigitRun;
  }

  lemma FractionTake(s: string, k: nat)
    requires Fraction(s).Some? && Fraction(s).value <= k <= |s|
    ensures Fraction(s[..k]) == Fraction(s)
  {
    if s != "" && s[0] == '.' {
      RunTake(s[1..], k - 1);
      assert s[..k][1..] == s[1..][..k - 1];
      hide DigitRun;
    }
  }

  lemma ExponentTake(s: string)
    requires Exponent(s).Some?
    ensures Exponent(s[..Exponent(s).value]) == Exponent(s)
  {
    var e := Exponent(s).value;
    if s != "" && s[0] in "eE" {
      var sign := if |s| > 1 && (s[1] == '+' || s[1] == '-') then 2 else 1;
      RunTake(s[sign..], e - sign);
      assert s[..e][sign..] == s[sign..][..e - sign];
      hide DigitRun;
    }
  }

  lemma TailTake(s: string, m: nat)
    requires Tail(s) == Some(m)
    ensures Tail(s[..m]) == Some(m)
  {
    var f := Fraction(s).value;
    FractionTake(s, m);
    ExponentTake(s[f..]);
    assert s[..m][f..] == s[f..][..m - f];
    hide Fraction, Exponent;
  }

  type RealText = s: string | IsReal(s) witness (OneHalf(); "0.5")

  datatype Value =
    | Null
    | Bool(flag: bool)
    | Num(number: Integer)
    | Real(numeral: RealText)
    | Str(text: string)
    | Arr(items: seq<Value>)
    | Obj(members: seq<Member>)

  // ------------------------------------------------------------ ASCII strings

  function HexDigit(n: nat): char
    requires n < 16
  {
    "0123456789abcdef"[n]
  }

  type Unit = u: nat | u < 0x10000

  function UnicodeEscape(unit: Unit): string {
    ['\\', 'u', HexDigit(unit / 0x1000), HexDigit(unit / 0x100 % 16), HexDigit(unit / 0x10 % 16), HexDigit(unit % 16)]
  }

  /** `encode_utf16`. */
  function CodeUnits(c: char): (units: seq<Unit>)
    ensures 1 <= |units| <= 2
  {
    var n := c as nat;
    if n < 0x10000 then [n] else [0xd800 + (n - 0x10000) / 0x400, 0xdc00 + (n - 0x10000) % 0x400]
  }

  predicate Printable(c: char) { ' ' <= c <= '~' }

  function EscapeUnits(units: seq<Unit>): string {
    if units == [] then "" else UnicodeEscape(units[0]) + EscapeUnits(units[1..])
  }

  /** Fleet's hash text escapes all but printable ASCII; a stored text, only what
   *  RFC 8259 requires. */
  function EscapeChar(c: char, ascii: bool): string {
    match c as nat
    case 0x22 => "\\\""
    case 0x5c => "\\\\"
    case 0x08 => "\\b"
    case 0x0c => "\\f"
    case 0x0a => "\\n"
    case 0x0d => "\\r"
    case 0x09 => "\\t"
    case n => if Printable(c) || (!ascii && n >= 0x20) then [c] else EscapeUnits(CodeUnits(c))
  }

  function Escape(s: string, ascii: bool): string {
    if s == "" then "" else EscapeChar(s[0], ascii) + Escape(s[1..], ascii)
  }

  function Quoted(s: string, ascii: bool): string { "\"" + Escape(s, ascii) + "\"" }

  // ------------------------------------------------------------- compact text

  function Numeral(n: int): string { if n < 0 then "-" + Decimal(-n) else Decimal(n) }

  function Compact(v: Value, ascii: bool): string
    decreases v, 0
  {
    match v
    case Null => "null"
    case Bool(flag) => if flag then "true" else "false"
    case Num(n) => Numeral(n)
    case Real(numeral) => numeral
    case Str(text) => Quoted(text, ascii)
    case Arr(items) => "[" + CompactItems(items, ascii) + "]"
    case Obj(members) => "{" + CompactMembers(members, ascii) + "}"
  }

  function CompactItems(items: seq<Value>, ascii: bool): string
    decreases items, 1
  {
    if items == [] then ""
    else Compact(items[0], ascii) + (if |items| == 1 then "" else "," + CompactItems(items[1..], ascii))
  }

  function CompactMember(m: Member, ascii: bool): string
    decreases m, 1
  {
    Quoted(m.0, ascii) + ":" + Compact(m.1, ascii)
  }

  function CompactMembers(members: seq<Member>, ascii: bool): string
    decreases members, 2
  {
    if members == [] then ""
    else CompactMember(members[0], ascii) + (if |members| == 1 then "" else "," + CompactMembers(members[1..], ascii))
  }

  // ------------------------------------------------------------------- reader

  predicate Blank(c: char) { c == ' ' || c == '\t' || c == '\n' || c == '\r' }

  function SkipBlanks(s: string): (r: string)
    ensures |r| <= |s|
  {
    if s != "" && Blank(s[0]) then SkipBlanks(s[1..]) else s
  }

  function HexValue(c: char): Option<nat> {
    if '0' <= c <= '9' then Some(c as nat - '0' as nat)
    else if 'a' <= c <= 'f' then Some(c as nat - 'a' as nat + 10)
    else if 'A' <= c <= 'F' then Some(c as nat - 'A' as nat + 10)
    else None
  }

  /** The code unit of `\uXXXX` at the front. */
  function ReadUnit(s: string): (r: Option<nat>)
    ensures r.Some? ==> |s| >= 6 && r.value < 0x10000
  {
    if |s| < 6 || s[0] != '\\' || s[1] != 'u' then None
    else
      match (HexValue(s[2]), HexValue(s[3]), HexValue(s[4]), HexValue(s[5]))
      case (Some(a), Some(b), Some(c), Some(d)) =>
        var unit := ((a * 16 + b) * 16 + c) * 16 + d;
        if unit < 0x10000 then Some(unit) else None
      case _ => None
  }

  /** One `\uXXXX` escape, or a surrogate pair of two, and how long it is. */
  function ReadUnicode(s: string): (r: Option<(char, nat)>)
    ensures r.Some? ==> 0 < r.value.1 <= |s|
  {
    match ReadUnit(s)
    case None => None
    case Some(unit) =>
      if unit < 0xd800 || 0xe000 <= unit then Some((unit as char, 6))
      else if 0xdc00 <= unit then None
      else
        match ReadUnit(s[6..])
        case None => None
        case Some(low) =>
          if 0xdc00 <= low < 0xe000
          then Some(((0x10000 + (unit - 0xd800) * 0x400 + (low - 0xdc00)) as char, 12))
          else None
  }

  /** One character of a string, unescaped, and how long it is in the text. */
  function ReadChar(s: string): (r: Option<(char, nat)>)
    requires s != ""
    ensures r.Some? ==> 0 < r.value.1 <= |s|
  {
    if s[0] < ' ' || s[0] == '"' then None
    else if s[0] != '\\' then Some((s[0], 1))
    else if |s| == 1 then None
    else
      match s[1]
      case '"' => Some(('"', 2))
      case '\\' => Some(('\\', 2))
      case '/' => Some(('/', 2))
      case 'b' => Some((0x08 as char, 2))
      case 'f' => Some((0x0c as char, 2))
      case 'n' => Some(('\n', 2))
      case 'r' => Some(('\r', 2))
      case 't' => Some(('\t', 2))
      case 'u' => ReadUnicode(s)
      case _ => None
  }

  /** The rest of a string after its opening quote, up to its closing one. */
  function ReadString(s: string): (r: Option<(string, string)>)
    ensures r.Some? ==> |r.value.1| < |s|
    decreases |s|
  {
    if s == "" then None
    else if s[0] == '"' then Some(("", s[1..]))
    else
      match ReadChar(s)
      case None => None
      case Some((c, n)) =>
        match ReadString(s[n..])
        case None => None
        case Some((text, rest)) => Some(([c] + text, rest))
  }

  predicate Front(word: string, s: string) { |word| <= |s| && s[..|word|] == word }

  function ReadValue(s: string): (r: Option<(Value, string)>)
    ensures r.Some? ==> |r.value.1| < |s|
    decreases |s|, 0
  {
    var t := SkipBlanks(s);
    if t == "" then None
    else if Front("null", t) then Some((Null, t[4..]))
    else if Front("true", t) then Some((Bool(true), t[4..]))
    else if Front("false", t) then Some((Bool(false), t[5..]))
    else if t[0] == '"' then ReadText(t[1..])
    else if t[0] == '[' then ReadArray(t[1..])
    else if t[0] == '{' then ReadObject(t[1..])
    else if t[0] == '-' || Digit(t[0]) then ReadNumber(t)
    else None
  }

  /** A number: a 64-bit integer unless it has a fraction or an exponent. */
  function ReadNumber(s: string): (r: Option<(Value, string)>)
    requires s != ""
    ensures r.Some? ==> |r.value.1| < |s|
  {
    match IntegerPart(s)
    case None => None
    case Some(n) =>
      match Tail(s[n..])
      case None => None
      case Some(m) =>
        if m > 0 then
          RealFront(s, n, m);
          Some((Real(s[..n + m]), s[n + m..]))
        else ReadInteger(s, n)
  }

  /** "-0" is not an integer. */
  function ReadInteger(s: string, n: nat): (r: Option<(Value, string)>)
    requires 0 < n <= |s|
    ensures r.Some? ==> |r.value.1| < |s|
  {
    var value := if s[0] == '-' then -DecimalValue(s[1..n]) else DecimalValue(s[..n]);
    if (s[0] == '-' && value == 0) || value < -0x8000_0000_0000_0000 || value > 0xffff_ffff_ffff_ffff then None
    else Some((Num(value), s[n..]))
  }

  function ReadText(s: string): (r: Option<(Value, string)>)
    ensures r.Some? ==> |r.value.1| < |s|
  {
    match ReadString(s)
    case None => None
    case Some((text, rest)) => Some((Str(text), rest))
  }

  function ReadArray(s: string): (r: Option<(Value, string)>)
    ensures r.Some? ==> |r.value.1| < |s|
    decreases |s|, 2
  {
    if Front("]", SkipBlanks(s)) then Some((Arr([]), SkipBlanks(s)[1..]))
    else
      match ReadItems(s)
      case None => None
      case Some((items, rest)) => Some((Arr(items), rest))
  }

  function ReadObject(s: string): (r: Option<(Value, string)>)
    ensures r.Some? ==> |r.value.1| < |s|
    decreases |s|, 3
  {
    if Front("}", SkipBlanks(s)) then Some((Obj([]), SkipBlanks(s)[1..]))
    else
      match ReadMembers(s)
      case None => None
      case Some((members, rest)) => Some((Obj(members), rest))
  }

  function ReadItems(s: string): (r: Option<(seq<Value>, string)>)
    ensures r.Some? ==> |r.value.1| < |s|
    decreases |s|, 1
  {
    match ReadValue(s)
    case None => None
    case Some((v, after)) =>
      var t := SkipBlanks(after);
      if Front("]", t) then Some(([v], t[1..]))
      else if Front(",", t) then
        match ReadItems(t[1..])
        case None => None
        case Some((items, rest)) => Some(([v] + items, rest))
      else None
  }

  function ReadMember(s: string): (r: Option<(Member, string)>)
    ensures r.Some? ==> |r.value.1| < |s|
    decreases |s|, 1
  {
    var t := SkipBlanks(s);
    if !Front("\"", t) then None
    else
      match ReadString(t[1..])
      case None => None
      case Some((key, after)) =>
        var u := SkipBlanks(after);
        if !Front(":", u) then None
        else
          match ReadValue(u[1..])
          case None => None
          case Some((v, rest)) => Some(((key, v), rest))
  }

  function ReadMembers(s: string): (r: Option<(seq<Member>, string)>)
    ensures r.Some? ==> |r.value.1| < |s|
    decreases |s|, 2
  {
    match ReadMember(s)
    case None => None
    case Some((m, after)) =>
      var t := SkipBlanks(after);
      if Front("}", t) then Some(([m], t[1..]))
      else if Front(",", t) then
        match ReadMembers(t[1..])
        case None => None
        case Some((members, rest)) => Some(([m] + members, rest))
      else None
  }

  /** A whole text: one value between optional blanks. */
  function Read(s: string): Option<Value> {
    match ReadValue(s)
    case None => None
    case Some((v, rest)) => if SkipBlanks(rest) == "" then Some(v) else None
  }

  // --------------------------------------------------------------- round trip

  lemma HexRoundTrip(n: nat)
    requires n < 16
    ensures HexValue(HexDigit(n)) == Some(n)
  {
  }

  lemma HexDigits(unit: Unit)
    ensures var (a, b, c, d) := (unit / 0x1000, unit / 0x100 % 16, unit / 0x10 % 16, unit % 16);
            unit == ((a * 16 + b) * 16 + c) * 16 + d
  {
    assert unit / 0x10 == unit / 0x100 * 16 + unit / 0x10 % 16;
    assert unit / 0x100 == unit / 0x1000 * 16 + unit / 0x100 % 16;
  }

  lemma UnitRoundTrip(unit: Unit, rest: string)
    ensures ReadUnit(UnicodeEscape(unit) + rest) == Some(unit)
    ensures (UnicodeEscape(unit) + rest)[6..] == rest
  {
    HexRoundTrip(unit / 0x1000);
    HexRoundTrip(unit / 0x100 % 16);
    HexRoundTrip(unit / 0x10 % 16);
    HexRoundTrip(unit % 16);
    HexDigits(unit);
    hide HexValue, HexDigit;
  }

  lemma SurrogatePair(c: char)
    requires c as nat >= 0x10000
    ensures var units := CodeUnits(c);
            && |units| == 2 && 0xd800 <= units[0] < 0xdc00 <= units[1] < 0xe000
            && (var high: int, low: int := units[0], units[1];
                0x10000 + (high - 0xd800) * 0x400 + (low - 0xdc00) == c as int)
  {
    var n := c as nat - 0x10000;
    assert n == n / 0x400 * 0x400 + n % 0x400;
  }

  lemma EscapedUnits(units: seq<Unit>)
    ensures |units| == 1 ==> EscapeUnits(units) == UnicodeEscape(units[0])
    ensures |units| == 2 ==> EscapeUnits(units) == UnicodeEscape(units[0]) + UnicodeEscape(units[1])
  {
    if |units| == 1 {
      assert units[1..] == [];
    } else if |units| == 2 {
      assert units[1..] == [units[1]] && [units[1]][1..] == [];
      assert EscapeUnits([units[1]]) == UnicodeEscape(units[1]) + EscapeUnits([]);
    }
  }

  lemma ReadBasic(unit: Unit, rest: string)
    requires unit < 0xd800 || 0xe000 <= unit
    ensures ReadUnicode(UnicodeEscape(unit) + rest) == Some((unit as char, 6))
  {
    UnitRoundTrip(unit, rest);
    hide ReadUnit, UnicodeEscape;
  }

  lemma ReadPair(high: Unit, low: Unit, rest: string)
    requires 0xd800 <= high < 0xdc00 <= low < 0xe000
    ensures var n: int := high;
            ReadUnicode(UnicodeEscape(high) + (UnicodeEscape(low) + rest)) ==
            Some(((0x10000 + (n - 0xd800) * 0x400 + (low - 0xdc00)) as char, 12))
  {
    UnitRoundTrip(high, UnicodeEscape(low) + rest);
    UnitRoundTrip(low, rest);
    hide ReadUnit;
  }

  lemma BasicRoundTrip(c: char, rest: string)
    requires c as nat < 0x10000
    ensures var text := EscapeUnits(CodeUnits(c));
            ReadUnicode(text + rest) == Some((c, |text|))
  {
    EscapedUnits(CodeUnits(c));
    hide ReadUnicode, EscapeUnits, ReadUnit;
    ReadBasic(c as nat, rest);
  }

  lemma PairText(c: char, rest: string)
    requires c as nat >= 0x10000
    ensures var units := CodeUnits(c);
            && |units| == 2 && |EscapeUnits(units)| == 12
            && EscapeUnits(units) + rest == UnicodeEscape(units[0]) + (UnicodeEscape(units[1]) + rest)
  {
    SurrogatePair(c);
    EscapedUnits(CodeUnits(c));
    hide EscapeUnits, CodeUnits;
  }

  lemma PairRoundTrip(c: char, rest: string)
    requires c as nat >= 0x10000
    ensures ReadUnicode(EscapeUnits(CodeUnits(c)) + rest) == Some((c, 12))
  {
    hide ReadUnicode, EscapeUnits, CodeUnits, UnicodeEscape;
    SurrogatePair(c);
    PairText(c, rest);
    ReadPair(CodeUnits(c)[0], CodeUnits(c)[1], rest);
  }

  /** A character outside printable ASCII comes back from its code units. */
  lemma UnicodeRoundTrip(c: char, rest: string)
    ensures var text := EscapeUnits(CodeUnits(c));
            ReadUnicode(text + rest) == Some((c, |text|))
  {
    hide ReadUnicode, EscapeUnits, CodeUnits, UnicodeEscape;
    if c as nat < 0x10000 {
      BasicRoundTrip(c, rest);
    } else {
      PairText(c, rest);
      PairRoundTrip(c, rest);
    }
  }

  /** Characters with a two-character escape of their own. */
  predicate ShortEscape(c: char) { c as nat in {0x22, 0x5c, 0x08, 0x0c, 0x0a, 0x0d, 0x09} }

  lemma ShortRoundTrip(c: char, rest: string, ascii: bool)
    requires ShortEscape(c)
    ensures |EscapeChar(c, ascii)| == 2 && EscapeChar(c, ascii)[0] == '\\'
    ensures ReadChar(EscapeChar(c, ascii) + rest) == Some((c, 2))
  {
    hide ReadUnicode, EscapeUnits, CodeUnits;
  }

  /** A character that stands for itself. */
  predicate Plain(c: char, ascii: bool) {
    !ShortEscape(c) && (Printable(c) || (!ascii && c as nat >= 0x20))
  }

  lemma PlainRoundTrip(c: char, rest: string, ascii: bool)
    requires Plain(c, ascii)
    ensures EscapeChar(c, ascii) == [c] && c != '"' && ReadChar([c] + rest) == Some((c, 1))
  {
    hide ReadUnicode, EscapeUnits, CodeUnits;
  }

  lemma EscapedIsUnicode(c: char, ascii: bool)
    requires !ShortEscape(c) && !Plain(c, ascii)
    ensures EscapeChar(c, ascii) == EscapeUnits(CodeUnits(c))
  {
    hide EscapeUnits, CodeUnits;
  }

  lemma ReadsUnicode(s: string)
    requires |s| >= 2 && s[0] == '\\' && s[1] == 'u'
    ensures ReadChar(s) == ReadUnicode(s)
  {
    hide ReadUnicode;
  }

  lemma UnitsFront(units: seq<Unit>)
    requires units != []
    ensures |EscapeUnits(units)| >= 2 && EscapeUnits(units)[0] == '\\' && EscapeUnits(units)[1] == 'u'
  {
  }

  lemma CharRoundTrip(c: char, rest: string, ascii: bool)
    ensures EscapeChar(c, ascii) != "" && EscapeChar(c, ascii)[0] != '"'
    ensures ReadChar(EscapeChar(c, ascii) + rest) == Some((c, |EscapeChar(c, ascii)|))
  {
    hide EscapeChar, ReadChar, ReadUnicode, EscapeUnits, CodeUnits, ShortEscape, Plain;
    if ShortEscape(c) {
      ShortRoundTrip(c, rest, ascii);
    } else if Plain(c, ascii) {
      PlainRoundTrip(c, rest, ascii);
    } else {
      EscapedIsUnicode(c, ascii);
      UnicodeRoundTrip(c, rest);
      UnitsFront(CodeUnits(c));
      ReadsUnicode(EscapeUnits(CodeUnits(c)) + rest);
    }
  }

  lemma ReadStringStep(c: char, tail: string, ascii: bool)
    ensures ReadString(EscapeChar(c, ascii) + tail) ==
            match ReadString(tail)
            case None => None
            case Some((text, rest)) => Some(([c] + text, rest))
  {
    CharRoundTrip(c, tail, ascii);
    var s := EscapeChar(c, ascii) + tail;
    assert s[|EscapeChar(c, ascii)|..] == tail;
    assert s[0] == EscapeChar(c, ascii)[0];
    hide ReadChar, EscapeChar;
  }

  lemma EscapeCons(s: string, rest: string, ascii: bool)
    requires s != ""
    ensures Escape(s, ascii) + "\"" + rest == EscapeChar(s[0], ascii) + (Escape(s[1..], ascii) + "\"" + rest)
  {
    hide EscapeChar;
  }

  lemma {:induction false} StringRoundTrip(s: string, rest: string, ascii: bool)
    ensures ReadString(Escape(s, ascii) + "\"" + rest) == Some((s, rest))
  {
    if s == "" {
      assert Escape(s, ascii) + "\"" + rest == "\"" + rest;
    } else {
      hide ReadString, EscapeChar, Escape;
      EscapeCons(s, rest, ascii);
      ReadStringStep(s[0], Escape(s[1..], ascii) + "\"" + rest, ascii);
      StringRoundTrip(s[1..], rest, ascii);
      assert [s[0]] + s[1..] == s;
    }
  }

  lemma DigitsRead(m: nat, rest: string)
    requires Ends(rest)
    ensures var digits := Decimal(m);
            var s := digits + rest;
            && DigitRun(s) == |digits| && s[..|digits|] == digits && s[|digits|..] == rest
            && DecimalValue(digits) == m && Digit(digits[0]) && (|digits| > 1 ==> digits[0] != '0')
  {
    assert m == 0 ==> |Decimal(m)| == 1;
    DecimalDigits(m);
    DecimalRoundTrip(m);
    hide Decimal, DecimalValue;
    AllDigits(Decimal(m));
    RunAppend(Decimal(m), rest);
  }

  lemma {:induction false} AllDigits(digits: string)
    requires forall i :: 0 <= i < |digits| ==> Digit(digits[i])
    ensures DigitRun(digits) == |digits|
  {
    if digits != "" { AllDigits(digits[1..]); }
  }

  lemma NoTail(rest: string)
    requires Ends(rest)
    ensures Tail(rest) == Some(0)
  {
    assert rest[0..] == rest;
  }

  lemma NaturalFront(m: nat, rest: string)
    requires Ends(rest)
    ensures var digits := Decimal(m);
            var s := digits + rest;
            && IntegerPart(s) == Some(|digits|) && s[|digits|..] == rest && s[0] != '-'
            && DecimalValue(s[..|digits|]) == m
  {
    DigitsRead(m, rest);
    var s := Decimal(m) + rest;
    hide Decimal, DecimalValue, DigitRun;
    assert s[0] == Decimal(m)[0] && s[0..] == s;
  }

  lemma AfterSign(digits: string, rest: string)
    ensures var s := "-" + digits + rest;
            && s[0] == '-' && s[1..] == digits + rest
            && s[1..|digits| + 1] == digits && s[|digits| + 1..] == rest
  {
  }

  lemma NegativeFront(m: nat, rest: string)
    requires Ends(rest)
    ensures var digits := "-" + Decimal(m);
            var s := digits + rest;
            && IntegerPart(s) == Some(|digits|) && s[|digits|..] == rest && s[0] == '-'
            && DecimalValue(s[1..|digits|]) == m
  {
    DigitsRead(m, rest);
    hide Decimal, DecimalValue, DigitRun;
    AfterSign(Decimal(m), rest);
  }

  lemma IntegerFront(n: Integer, rest: string)
    requires Ends(rest)
    ensures var s := Numeral(n) + rest;
            && IntegerPart(s) == Some(|Numeral(n)|) && s[|Numeral(n)|..] == rest && (s[0] == '-' <==> n < 0)
            && (if n < 0 then DecimalValue(s[1..|Numeral(n)|]) == -n else DecimalValue(s[..|Numeral(n)|]) == n)
  {
    hide IntegerPart, Decimal, DecimalValue;
    if n < 0 { NegativeFront(-n, rest); } else { NaturalFront(n, rest); }
  }

  lemma NumberRoundTrip(n: Integer, rest: string)
    requires Ends(rest)
    ensures ReadNumber(Numeral(n) + rest) == Some((Num(n), rest))
  {
    IntegerFront(n, rest);
    NoTail(rest);
    hide Numeral, IntegerPart, Tail, DecimalValue;
  }

  lemma RealRoundTrip(t: RealText, rest: string)
    requires Ends(rest)
    ensures ReadNumber(t + rest) == Some((Real(t), rest))
  {
    var n := IntegerPart(t).value;
    var s := t + rest;
    IntegerAppend(t, rest);
    assert s[n..] == t[n..] + rest;
    TailAppend(t[n..], rest);
    assert s[..|t|] == t && s[|t|..] == rest;
    hide IntegerPart, Tail;
  }

  lemma RealBegins(t: RealText)
    ensures t != "" && (t[0] == '-' || Digit(t[0]))
  {
    hide Tail;
  }

  lemma NumeralFront(n: Integer)
    ensures Numeral(n) != "" && (Numeral(n)[0] == '-' || Digit(Numeral(n)[0]))
  {
    DecimalDigits(if n < 0 then -n else n);
    hide Decimal;
  }

  /** A text that begins with neither a blank nor this closing bracket. */
  predicate Begins(s: string, close: string) { s != "" && !Blank(s[0]) && |close| == 1 && s[0] != close[0] }

  lemma FirstChar(v: Value, ascii: bool)
    ensures Begins(Compact(v, ascii), "]")
  {
    if v.Num? {
      NumeralFront(v.number);
      hide Numeral;
    } else if v.Real? {
      RealBegins(v.numeral);
    }
  }

  lemma FrontByFirst(word: string, s: string)
    requires word != "" && s != ""
    ensures Front(word, s) ==> s[0] == word[0]
    ensures |word| == 1 && s[0] == word[0] ==> Front(word, s)
  {
    assert |word| <= |s| ==> s[..|word|][0] == s[0];
  }

  /** What the first character of a text decides. */
  lemma ReadByFront(s: string)
    requires s != "" && s[0] in "\"[{"
    ensures s[0] == '"' ==> ReadValue(s) == ReadText(s[1..])
    ensures s[0] == '[' ==> ReadValue(s) == ReadArray(s[1..])
    ensures s[0] == '{' ==> ReadValue(s) == ReadObject(s[1..])
  {
    FrontByFirst("null", s);
    FrontByFirst("true", s);
    FrontByFirst("false", s);
    hide Front;
  }

  lemma WordRoundTrip(v: Value, rest: string, ascii: bool)
    requires v.Null? || v.Bool?
    ensures ReadValue(Compact(v, ascii) + rest) == Some((v, rest))
  {
    var s := Compact(v, ascii) + rest;
    assert s[..|Compact(v, ascii)|] == Compact(v, ascii) && s[|Compact(v, ascii)|..] == rest;
    assert SkipBlanks(s) == s;
    FrontByFirst("null", s);
    FrontByFirst("true", s);
  }

  lemma NumberValue(n: Integer, rest: string, ascii: bool)
    requires Ends(rest)
    ensures ReadValue(Compact(Num(n), ascii) + rest) == Some((Num(n), rest))
  {
    NumeralFront(n);
    NumberRoundTrip(n, rest);
    hide Numeral, ReadNumber;
    assert (Numeral(n) + rest)[0] == Numeral(n)[0];
    ReadAsNumber(Numeral(n) + rest);
  }

  lemma RealValue(t: RealText, rest: string, ascii: bool)
    requires Ends(rest)
    ensures ReadValue(Compact(Real(t), ascii) + rest) == Some((Real(t), rest))
  {
    RealBegins(t);
    RealRoundTrip(t, rest);
    hide ReadNumber, IsReal;
    ReadAsNumber(t + rest);
  }

  lemma ReadAsNumber(s: string)
    requires s != "" && (s[0] == '-' || Digit(s[0]))
    ensures ReadValue(s) == ReadNumber(s)
  {
    FrontByFirst("null", s);
    FrontByFirst("true", s);
    FrontByFirst("false", s);
    hide ReadNumber, Front;
    assert SkipBlanks(s) == s;
  }

  lemma TextRoundTrip(text: string, rest: string, ascii: bool)
    ensures ReadValue(Quoted(text, ascii) + rest) == Some((Str(text), rest))
  {
    var s := Quoted(text, ascii) + rest;
    assert s[1..] == Escape(text, ascii) + "\"" + rest;
    ReadByFront(s);
    StringRoundTrip(text, rest, ascii);
    hide ReadValue, ReadString;
  }

  lemma {:induction false} ValueRoundTrip(v: Value, rest: string, ascii: bool)
    requires Ends(rest)
    ensures ReadValue(Compact(v, ascii) + rest) == Some((v, rest))
    decreases v, 0
  {
    hide ReadValue;
    match v
    case Null => WordRoundTrip(v, rest, ascii);
    case Bool(_) => WordRoundTrip(v, rest, ascii);
    case Num(n) => NumberValue(n, rest, ascii);
    case Real(t) => RealValue(t, rest, ascii);
    case Str(text) => TextRoundTrip(text, rest, ascii);
    case Arr(items) => ArrayRoundTrip(items, rest, ascii);
    case Obj(members) => ObjectRoundTrip(members, rest, ascii);
  }

  lemma NotClosed(s: string, close: string)
    requires Begins(s, close)
    ensures SkipBlanks(s) == s && !Front(close, s)
  {
    FrontByFirst(close, s);
  }

  lemma Closed(close: string, rest: string)
    requires close == "]" || close == "}"
    ensures SkipBlanks(close + rest) == close + rest && Front(close, close + rest) && (close + rest)[1..] == rest
  {
    FrontByFirst(close, close + rest);
  }

  lemma Opened(open: string, inner: string, close: string, rest: string)
    requires |open| == 1
    ensures var s := open + inner + close + rest;
            s != "" && s[0] == open[0] && s[1..] == inner + close + rest
    ensures inner == "" ==> inner + close + rest == close + rest
  {
  }

  lemma ItemsBegin(items: seq<Value>, rest: string, ascii: bool)
    requires items != []
    ensures Begins(CompactItems(items, ascii) + "]" + rest, "]")
  {
    FirstChar(items[0], ascii);
    hide Compact, Blank;
    assert CompactItems(items, ascii)[0] == Compact(items[0], ascii)[0];
  }

  lemma MembersBegin(members: seq<Member>, rest: string, ascii: bool)
    requires members != []
    ensures Begins(CompactMembers(members, ascii) + "}" + rest, "}")
  {
    hide Compact, Escape;
    assert CompactMembers(members, ascii)[0] == '"';
  }

  lemma {:induction false} ArrayRoundTrip(items: seq<Value>, rest: string, ascii: bool)
    ensures ReadValue("[" + CompactItems(items, ascii) + "]" + rest) == Some((Arr(items), rest))
    decreases items, 2
  {
    Opened("[", CompactItems(items, ascii), "]", rest);
    ReadByFront("[" + CompactItems(items, ascii) + "]" + rest);
    if items == [] {
      Closed("]", rest);
    } else {
      ItemsBegin(items, rest, ascii);
      NotClosed(CompactItems(items, ascii) + "]" + rest, "]");
      ItemsRoundTrip(items, rest, ascii);
    }
    hide ReadValue, ReadItems, Front, SkipBlanks, Begins;
  }

  lemma {:induction false} ObjectRoundTrip(members: seq<Member>, rest: string, ascii: bool)
    ensures ReadValue("{" + CompactMembers(members, ascii) + "}" + rest) == Some((Obj(members), rest))
    decreases members, 3
  {
    Opened("{", CompactMembers(members, ascii), "}", rest);
    ReadByFront("{" + CompactMembers(members, ascii) + "}" + rest);
    if members == [] {
      Closed("}", rest);
    } else {
      MembersBegin(members, rest, ascii);
      NotClosed(CompactMembers(members, ascii) + "}" + rest, "}");
      MembersRoundTrip(members, rest, ascii);
    }
    hide ReadValue, ReadMembers, Front, SkipBlanks, Begins;
  }

  /** A mark between two texts: no blank, and the only mark it is. */
  lemma Mark(mark: string, rest: string)
    requires mark in [",", "]", "}", ":"]
    ensures var t := mark + rest;
            SkipBlanks(t) == t && t[1..] == rest
            && forall other :: other in [",", "]", "}", ":"] ==> (Front(other, t) <==> other == mark)
  {
    var t := mark + rest;
    FrontByFirst(",", t);
    FrontByFirst("]", t);
    FrontByFirst("}", t);
    FrontByFirst(":", t);
  }

  lemma {:induction false} ItemsRoundTrip(items: seq<Value>, rest: string, ascii: bool)
    requires items != []
    ensures ReadItems(CompactItems(items, ascii) + "]" + rest) == Some((items, rest))
    decreases items, 1
  {
    var s := CompactItems(items, ascii) + "]" + rest;
    hide ReadValue, Front, SkipBlanks, Compact;
    if |items| == 1 {
      assert s == Compact(items[0], ascii) + ("]" + rest);
      ValueRoundTrip(items[0], "]" + rest, ascii);
      Mark("]", rest);
      assert [items[0]] == items;
    } else {
      var inner := CompactItems(items[1..], ascii) + "]" + rest;
      assert s == Compact(items[0], ascii) + ("," + inner);
      ValueRoundTrip(items[0], "," + inner, ascii);
      Mark(",", inner);
      ItemsRoundTrip(items[1..], rest, ascii);
      assert [items[0]] + items[1..] == items;
    }
  }

  lemma DropQuote(key: string, text: string, rest: string)
    ensures (("\"" + key + "\"") + ":" + text + rest)[1..] == key + "\"" + (":" + (text + rest))
  {
    assert ("\"" + key + "\"") + ":" + text + rest == "\"" + (key + "\"" + (":" + (text + rest)));
  }

  lemma MemberFront(m: Member, rest: string, ascii: bool)
    ensures var s := CompactMember(m, ascii) + rest;
            Front("\"", s) && SkipBlanks(s) == s && s[1..] == Escape(m.0, ascii) + "\"" + (":" + (Compact(m.1, ascii) + rest))
  {
    FrontByFirst("\"", CompactMember(m, ascii) + rest);
    DropQuote(Escape(m.0, ascii), Compact(m.1, ascii), rest);
    hide Escape, Compact, Front;
  }

  lemma {:induction false} MemberRoundTrip(m: Member, rest: string, ascii: bool)
    requires Ends(rest)
    ensures ReadMember(CompactMember(m, ascii) + rest) == Some((m, rest))
    decreases m, 1
  {
    MemberFront(m, rest, ascii);
    StringRoundTrip(m.0, ":" + (Compact(m.1, ascii) + rest), ascii);
    Mark(":", Compact(m.1, ascii) + rest);
    ValueRoundTrip(m.1, rest, ascii);
    hide ReadValue, Front, SkipBlanks, Compact, ReadString, CompactMember, Escape;
  }

  lemma {:induction false} MembersRoundTrip(members: seq<Member>, rest: string, ascii: bool)
    requires members != []
    ensures ReadMembers(CompactMembers(members, ascii) + "}" + rest) == Some((members, rest))
    decreases members, 2
  {
    var s := CompactMembers(members, ascii) + "}" + rest;
    hide ReadMember, Front, SkipBlanks, CompactMember;
    if |members| == 1 {
      assert s == CompactMember(members[0], ascii) + ("}" + rest);
      MemberRoundTrip(members[0], "}" + rest, ascii);
      Mark("}", rest);
      assert [members[0]] == members;
    } else {
      var inner := CompactMembers(members[1..], ascii) + "}" + rest;
      assert s == CompactMember(members[0], ascii) + ("," + inner);
      MemberRoundTrip(members[0], "," + inner, ascii);
      Mark(",", inner);
      MembersRoundTrip(members[1..], rest, ascii);
      assert [members[0]] + members[1..] == members;
    }
  }

  /** A reader of RFC 8259 recovers every value from its compact text. */
  lemma CompactRoundTrip(v: Value, ascii: bool)
    ensures Read(Compact(v, ascii)) == Some(v)
  {
    ValueRoundTrip(v, "", ascii);
    assert Compact(v, ascii) + "" == Compact(v, ascii);
  }

  // -------------------------------------------------------------------- ASCII

  predicate Ascii(s: string) { forall i :: 0 <= i < |s| ==> Printable(s[i]) }

  lemma HexAscii(unit: Unit)
    ensures Ascii(UnicodeEscape(unit))
  {
  }

  lemma {:induction false} UnitsAscii(units: seq<Unit>)
    ensures Ascii(EscapeUnits(units))
  {
    if units != [] {
      HexAscii(units[0]);
      UnitsAscii(units[1..]);
    }
  }

  lemma {:induction false} EscapeAscii(s: string)
    ensures Ascii(Escape(s, true))
  {
    if s != "" {
      UnitsAscii(CodeUnits(s[0]));
      EscapeAscii(s[1..]);
      hide EscapeUnits;
    }
  }

  lemma QuotedAscii(s: string)
    ensures Ascii(Quoted(s, true))
  {
    EscapeAscii(s);
    hide Escape;
  }

  lemma {:induction false} RunAscii(s: string)
    ensures Ascii(s[..DigitRun(s)])
  {
    if s != "" && Digit(s[0]) {
      RunAscii(s[1..]);
      assert s[..DigitRun(s)] == [s[0]] + s[1..][..DigitRun(s[1..])];
    }
  }

  lemma AsciiConcat(a: string, b: string)
    requires Ascii(a) && Ascii(b)
    ensures Ascii(a + b)
  {
  }

  lemma IntegerAscii(s: string)
    requires IntegerPart(s).Some?
    ensures Ascii(s[..IntegerPart(s).value])
  {
    var sign := if s[0] == '-' then 1 else 0;
    RunAscii(s[sign..]);
    assert s[..IntegerPart(s).value] == s[..sign] + s[sign..][..DigitRun(s[sign..])];
    hide DigitRun;
    AsciiConcat(s[..sign], s[sign..][..DigitRun(s[sign..])]);
  }

  lemma FractionAscii(s: string)
    requires Fraction(s).Some?
    ensures Ascii(s[..Fraction(s).value])
  {
    if s != "" && s[0] == '.' {
      RunAscii(s[1..]);
      assert s[..Fraction(s).value] == s[..1] + s[1..][..DigitRun(s[1..])];
      hide DigitRun;
      AsciiConcat(s[..1], s[1..][..DigitRun(s[1..])]);
    }
  }

  lemma ExponentAscii(s: string)
    requires Exponent(s).Some?
    ensures Ascii(s[..Exponent(s).value])
  {
    if s != "" && s[0] in "eE" {
      var sign := if |s| > 1 && (s[1] == '+' || s[1] == '-') then 2 else 1;
      RunAscii(s[sign..]);
      assert s[..Exponent(s).value] == s[..sign] + s[sign..][..DigitRun(s[sign..])];
      hide DigitRun;
      AsciiConcat(s[..sign], s[sign..][..DigitRun(s[sign..])]);
    }
  }

  lemma RealAscii(t: RealText)
    ensures Ascii(t)
  {
    var n := IntegerPart(t).value;
    var s := t[n..];
    var f := Fraction(s).value;
    IntegerAscii(t);
    FractionAscii(s);
    ExponentAscii(s[f..]);
    hide IntegerPart, Fraction, Exponent;
    assert t == t[..n] + (s[..f] + s[f..]);
    assert s[f..][..|s| - f] == s[f..];
    AsciiConcat(s[..f], s[f..]);
    AsciiConcat(t[..n], s[..f] + s[f..]);
  }

  lemma NumeralAscii(n: Integer)
    ensures Ascii(Numeral(n))
  {
    DecimalDigits(if n < 0 then -n else n);
    hide Decimal;
  }

  /** The text consists of printable ASCII only. */
  lemma {:induction false} CompactAscii(v: Value)
    ensures Ascii(Compact(v, true))
    decreases v, 0
  {
    hide Numeral, Quoted;
    match v
    case Null =>
    case Bool(_) =>
    case Num(n) => NumeralAscii(n);
    case Real(t) => RealAscii(t);
    case Str(text) => QuotedAscii(text);
    case Arr(items) => ItemsAscii(items);
    case Obj(members) => MembersAscii(members);
  }

  lemma {:induction false} ItemsAscii(items: seq<Value>)
    ensures Ascii(CompactItems(items, true))
    decreases items, 1
  {
    if items != [] {
      CompactAscii(items[0]);
      ItemsAscii(items[1..]);
    }
  }

  lemma {:induction false} MemberAscii(m: Member)
    ensures Ascii(CompactMember(m, true))
    decreases m, 1
  {
    QuotedAscii(m.0);
    CompactAscii(m.1);
    hide Quoted, Compact;
  }

  lemma {:induction false} MembersAscii(members: seq<Member>)
    ensures Ascii(CompactMembers(members, true))
    decreases members, 2
  {
    if members != [] {
      MemberAscii(members[0]);
      MembersAscii(members[1..]);
    }
  }
}
