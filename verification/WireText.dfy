/** How long a response is once serialized, and the texts put into it. */
module WireText {
  import opened Options
  import opened Encoding
  import Json

  const MAX_TEXT_BYTES := 256
  const MAX_RESPONSE_BYTES := 65536

  // ----------------------------------------------------------- bounded texts

  function Visible(s: string): string {
    if s == "" then ""
    else (if Control(s[0]) then "" else [s[0]]) + Visible(s[1..])
  }

  /** The longest front of `s` whose encoding fits in `room` bytes. */
  function Front(s: string, room: nat): (r: string)
    ensures |Utf8(r)| <= room && r <= s
    ensures r != s ==> room < |Utf8(s[..|r| + 1])|
  {
    if s == "" || |EncodeChar(s[0])| > room then
      if s != "" then FrontOf(s); "" else ""
    else
      var rest := Front(s[1..], room - |EncodeChar(s[0])|);
      FrontCons(s, rest);
      [s[0]] + rest
  }

  lemma FrontOf(s: string)
    requires s != ""
    ensures |Utf8(s[..1])| == |EncodeChar(s[0])|
  {
    assert s[..1][1..] == "";
  }

  lemma Utf8Cons(c: char, rest: string)
    ensures Utf8([c] + rest) == EncodeChar(c) + Utf8(rest)
  {
    assert ([c] + rest)[1..] == rest;
  }

  lemma ConsPrefix(c: char, rest: string, tail: string)
    requires rest <= tail
    ensures [c] + rest <= [c] + tail
    ensures |rest| < |tail| ==> ([c] + tail)[..|rest| + 2] == [c] + tail[..|rest| + 1]
  {
  }

  lemma FrontCons(s: string, rest: string)
    requires s != "" && rest <= s[1..]
    ensures [s[0]] + rest <= s
    ensures Utf8([s[0]] + rest) == EncodeChar(s[0]) + Utf8(rest)
    ensures |rest| < |s[1..]| ==> Utf8(s[..|rest| + 2]) == EncodeChar(s[0]) + Utf8(s[1..][..|rest| + 1])
  {
    hide Utf8, EncodeChar;
    assert s == [s[0]] + s[1..];
    ConsPrefix(s[0], rest, s[1..]);
    Utf8Cons(s[0], rest);
    if |rest| < |s[1..]| { Utf8Cons(s[0], s[1..][..|rest| + 1]); }
  }

  function BoundedText(s: string): (r: string)
    ensures |Utf8(r)| <= MAX_TEXT_BYTES && r <= Visible(s)
  {
    Front(Visible(s), MAX_TEXT_BYTES)
  }

  predicate NoControl(s: string) { forall i :: 0 <= i < |s| ==> !Control(s[i]) }

  lemma {:induction false} VisibleIdentity(s: string)
    ensures NoControl(Visible(s)) && |Visible(s)| <= |s|
    ensures Visible(s) == s <==> NoControl(s)
  {
    if s != "" {
      VisibleIdentity(s[1..]);
      assert s == [s[0]] + s[1..];
      if Control(s[0]) { assert |Visible(s)| < |s|; }
    }
  }

  lemma PrefixNoControl(r: string, v: string)
    requires r <= v && NoControl(v)
    ensures NoControl(r)
  {
    assert forall i :: 0 <= i < |r| ==> r[i] == v[i];
  }

  lemma FrontIsAll(v: string, room: nat)
    ensures Front(v, room) == v <==> |Utf8(v)| <= room
  {
    var r := Front(v, room);
    hide Front, Utf8;
    if r != v { Utf8Prefix(v, |r| + 1); }
  }

  /** A bounded text has no control character and is the text itself exactly when
   *  that has none and fits. */
  lemma BoundedTextIdentity(s: string)
    ensures NoControl(BoundedText(s))
    ensures BoundedText(s) == s <==> NoControl(s) && |Utf8(s)| <= 256
  {
    VisibleIdentity(s);
    var v, r := Visible(s), BoundedText(s);
    PrefixNoControl(r, v);
    FrontIsAll(v, MAX_TEXT_BYTES);
    assert r == Front(v, MAX_TEXT_BYTES);
    hide Visible, Front, NoControl, Utf8, BoundedText;
    SamePrefix(r, v, s);
  }

  /** It is the longest front, in at most 256 bytes, of the text without its control
   *  characters. */
  lemma BoundedTextLongest(s: string)
    ensures BoundedText(s) <= Visible(s) && |Utf8(BoundedText(s))| <= 256
    ensures BoundedText(s) != Visible(s) ==> |Utf8(Visible(s)[..|BoundedText(s)| + 1])| > 256
  {
    hide Visible, Utf8;
  }

  /** Leaving out control characters goes character by character. */
  lemma {:induction false} VisibleExactly(a: string, c: char)
    ensures var n := c as int;
            Visible(a + [c]) == Visible(a) + (if n < 0x20 || 0x7f <= n < 0xa0 then "" else [c])
    ensures Visible("") == ""
  {
    if a == "" {
      assert a + [c] == [c] && [c][1..] == "";
      assert Visible([c]) == (if Control(c) then "" else [c]) + Visible("");
    } else {
      VisibleExactly(a[1..], c);
      assert (a + [c])[1..] == a[1..] + [c];
    }
  }

  lemma SamePrefix(r: string, v: string, s: string)
    requires r <= v && |v| <= |s|
    ensures r == s ==> v == s
  {
  }

  lemma {:induction false} Utf8Prefix(s: string, n: nat)
    requires n <= |s|
    ensures |Utf8(s[..n])| <= |Utf8(s)|
  {
    if n > 0 {
      Utf8Prefix(s[1..], n - 1);
      assert s[..n][1..] == s[1..][..n - 1];
    }
  }

  lemma BoundedIdentifier(s: string)
    requires IdentifierOk(s)
    ensures BoundedText(s) == s && |Utf8(s)| <= MAX_TEXT_BYTES
  {
    assert AsciiOnly(s) && NoControl(s);
    AsciiLength(s);
    BoundedTextIdentity(s);
    hide BoundedText, Utf8;
  }

  lemma {:induction false} Utf8Snoc(s: string, c: char)
    ensures Utf8(s + [c]) == Utf8(s) + EncodeChar(c)
  {
    if s == "" {
      assert s + [c] == [c] && [c][1..] == "";
    } else {
      Utf8Snoc(s[1..], c);
      assert (s + [c])[1..] == s[1..] + [c];
    }
  }

  lemma FrontStep(s: string, output: string)
    requires |Utf8(output)| <= MAX_TEXT_BYTES && s != ""
    ensures var room := MAX_TEXT_BYTES - |Utf8(output)|;
            if |EncodeChar(s[0])| > room then Front(s, room) == ""
            else |Utf8(output + [s[0]])| == |Utf8(output)| + |EncodeChar(s[0])|
                 && Front(s, room) == [s[0]] + Front(s[1..], room - |EncodeChar(s[0])|)
  {
    Utf8Snoc(output, s[0]);
    hide EncodeChar, Utf8;
  }

  lemma VisibleCons(s: string)
    requires s != ""
    ensures Control(s[0]) ==> Visible(s) == Visible(s[1..])
    ensures !Control(s[0]) ==> Visible(s) != "" && Visible(s)[0] == s[0] && Visible(s)[1..] == Visible(s[1..])
  {
  }

  /** `output` and as much of the remaining visible characters as has room. */
  function Grown(output: string, visible: string): string
    requires |Utf8(output)| <= MAX_TEXT_BYTES
  {
    output + Front(visible, MAX_TEXT_BYTES - |Utf8(output)|)
  }

  lemma Reassociate(a: string, c: char, b: string)
    ensures a + ([c] + b) == (a + [c]) + b
  {
  }

  lemma GrownStep(output: string, s: string)
    requires |Utf8(output)| <= MAX_TEXT_BYTES && s != ""
    ensures if |Utf8(output)| + |EncodeChar(s[0])| > MAX_TEXT_BYTES then Grown(output, s) == output
            else |Utf8(output + [s[0]])| <= MAX_TEXT_BYTES && Grown(output, s) == Grown(output + [s[0]], s[1..])
  {
    hide Front, Utf8, EncodeChar;
    FrontStep(s, output);
    var room: int := MAX_TEXT_BYTES - |Utf8(output)| - |EncodeChar(s[0])|;
    if room >= 0 { Reassociate(output, s[0], Front(s[1..], room)); }
  }

  /** The loop of `bounded_text`: stops at the first character without room. */
  method BuildBoundedText(value: string) returns (output: string)
    ensures output == BoundedText(value)
  {
    output := "";
    var rest := value;
    GrownFromNothing(value);
    hide Grown, Utf8, EncodeChar, Control, BoundedText, Visible;
    while rest != ""
      invariant |Utf8(output)| <= MAX_TEXT_BYTES && Grown(output, Visible(rest)) == BoundedText(value)
      decreases |rest|
    {
      var c := rest[0];
      VisibleCons(rest);
      if !Control(c) {
        GrownStep(output, Visible(rest));
        if |Utf8(output)| + |EncodeChar(c)| > MAX_TEXT_BYTES { return; }
        output := output + [c];
      }
      rest := rest[1..];
    }
    GrownToEnd(output);
  }

  lemma GrownFromNothing(value: string)
    ensures |Utf8("")| == 0 && Grown("", Visible(value)) == BoundedText(value)
  {
    hide Front, Visible;
    var all := Front(Visible(value), MAX_TEXT_BYTES);
    assert "" + all == all;
  }

  lemma GrownToEnd(output: string)
    requires |Utf8(output)| <= MAX_TEXT_BYTES
    ensures Grown(output, Visible("")) == output
  {
    assert Visible("") == "";
    var none := Front("", MAX_TEXT_BYTES - |Utf8(output)|);
    assert none == "";
    hide Front, Visible, Utf8;
    assert output + none == output;
  }

  // --------------------------------------------------------- serialized size

  datatype Tree =
    | Null
    | Flag(flag: bool)
    | Number(n: Counter)
    | Text(text: string)
    | List(items: seq<Tree>)
    | Record(members: seq<(string, Tree)>)

  /** The JSON value of a response, and its text as `serde_json` writes it. */
  function ValueOf(t: Tree): Json.Value
    decreases t, 0
  {
    match t
    case Null => Json.Null
    case Flag(flag) => Json.Bool(flag)
    case Number(n) => Json.Num(n)
    case Text(s) => Json.Str(s)
    case List(items) => Json.Arr(ValuesOf(items))
    case Record(members) => Json.Obj(EntriesOf(members))
  }

  function ValuesOf(items: seq<Tree>): seq<Json.Value>
    decreases items, 1
  {
    if items == [] then [] else [ValueOf(items[0])] + ValuesOf(items[1..])
  }

  function EntryOf(m: (string, Tree)): Json.Member
    decreases m, 1
  {
    (m.0, ValueOf(m.1))
  }

  function EntriesOf(members: seq<(string, Tree)>): seq<Json.Member>
    decreases members, 2
  {
    if members == [] then [] else [EntryOf(members[0])] + EntriesOf(members[1..])
  }

  function Wire(t: Tree): string { Json.Compact(ValueOf(t), false) }

  /** How many bytes go out. */
  function WireBytes(t: Tree): nat { |Utf8(Wire(t))| }

  /** serde_json escapes quotes, backslashes and C0 controls, and writes the rest as
   *  UTF-8. */
  function CharSize(c: char): nat {
    if c == '"' || c == '\\' then 2
    else if c as int < 0x20 then (if c as int in {8, 9, 10, 12, 13} then 2 else 6)
    else |EncodeChar(c)|
  }

  function TextSize(s: string): nat { if s == "" then 0 else CharSize(s[0]) + TextSize(s[1..]) }

  function Size(t: Tree): nat
    decreases t, 0
  {
    match t
    case Null => 4
    case Flag(flag) => if flag then 4 else 5
    case Number(n) => |Decimal(n)|
    case Text(s) => 2 + TextSize(s)
    case List(items) => 2 + ItemsSize(items)
    case Record(members) => 2 + MembersSize(members)
  }

  function ItemsSize(items: seq<Tree>): nat
    decreases items, 1
  {
    if items == [] then 0 else Size(items[0]) + (if |items| == 1 then 0 else 1) + ItemsSize(items[1..])
  }

  function MemberSize(m: (string, Tree)): nat
    decreases m, 1
  {
    2 + TextSize(m.0) + 1 + Size(m.1)
  }

  function MembersSize(members: seq<(string, Tree)>): nat
    decreases members, 2
  {
    if members == [] then 0 else MemberSize(members[0]) + (if |members| == 1 then 0 else 1) + MembersSize(members[1..])
  }

  // ------------------------------------------- the size is that of the text

  lemma Utf8Both(a: string, b: string)
    ensures |Utf8(a + b)| == |Utf8(a)| + |Utf8(b)|
  {
    Utf8Join(a, b);
    hide Utf8;
  }

  lemma Utf8One(c: char)
    ensures |Utf8([c])| == |EncodeChar(c)|
  {
    assert [c][1..] == "";
  }

  lemma EscapedCharSize(c: char)
    ensures |Utf8(Json.EscapeChar(c, false))| == CharSize(c)
  {
    if Json.ShortEscape(c) {
      AsciiLength(Json.EscapeChar(c, false));
    } else if Json.Plain(c, false) {
      Utf8One(c);
    } else {
      Json.EscapedIsUnicode(c, false);
      Json.EscapedUnits(Json.CodeUnits(c));
      Json.HexAscii(c as nat);
      AsciiLength(Json.UnicodeEscape(c as nat));
    }
  }

  lemma {:induction false} EscapedSize(s: string)
    ensures |Utf8(Json.Escape(s, false))| == TextSize(s)
  {
    hide Json.EscapeChar, CharSize;
    if s != "" {
      EscapedSize(s[1..]);
      EscapedCharSize(s[0]);
      Utf8Both(Json.EscapeChar(s[0], false), Json.Escape(s[1..], false));
    }
  }

  lemma QuotedSize(s: string)
    ensures |Utf8(Json.Quoted(s, false))| == 2 + TextSize(s)
  {
    hide Json.Escape, TextSize;
    EscapedSize(s);
    Utf8One('"');
    Utf8Both("\"", Json.Escape(s, false));
    Utf8Both("\"" + Json.Escape(s, false), "\"");
    hide Utf8;
  }

  lemma DecimalSize(n: nat)
    ensures |Utf8(Decimal(n))| == |Decimal(n)|
  {
    DecimalDigits(n);
    hide Decimal;
    AsciiLength(Decimal(n));
  }

  lemma Enclosed(open: string, inner: string, close: string)
    ensures |Utf8(open + inner + close)| == |Utf8(open)| + |Utf8(inner)| + |Utf8(close)|
  {
    Utf8Both(open, inner);
    Utf8Both(open + inner, close);
  }

  /** The size is the number of bytes of the text. */
  lemma {:induction false} SizeExactly(t: Tree)
    ensures WireBytes(t) == Size(t)
    decreases t, 0
  {
    hide Utf8, Json.CompactItems, Json.CompactMembers, Json.Quoted, ValuesOf, EntriesOf, ItemsSize, MembersSize, TextSize,
      Decimal;
    match t
    case Null => AsciiLength("null");
    case Flag(flag) => AsciiLength(if flag then "true" else "false");
    case Number(n) => DecimalSize(n);
    case Text(s) => QuotedSize(s);
    case List(items) =>
      ItemsExactly(items);
      AsciiLength("[");
      AsciiLength("]");
      Enclosed("[", Json.CompactItems(ValuesOf(items), false), "]");
    case Record(members) =>
      MembersExactly(members);
      AsciiLength("{");
      AsciiLength("}");
      Enclosed("{", Json.CompactMembers(EntriesOf(members), false), "}");
  }

  lemma {:induction false} ItemsExactly(items: seq<Tree>)
    ensures |Utf8(Json.CompactItems(ValuesOf(items), false))| == ItemsSize(items)
    ensures |ValuesOf(items)| == |items|
    decreases items, 1
  {
    if items != [] {
      var rest := items[1..];
      SizeExactly(items[0]);
      ItemsExactly(rest);
      var first, more := Wire(items[0]), Json.CompactItems(ValuesOf(rest), false);
      assert ValuesOf(items)[1..] == ValuesOf(rest);
      hide Utf8, Json.Compact, Size, ValueOf;
      AsciiLength(",");
      Utf8Both(",", more);
      Utf8Both(first, "," + more);
      assert |items| == 1 ==> first + "" == first;
    }
  }

  lemma {:induction false} EntryExactly(m: (string, Tree))
    ensures |Utf8(Json.CompactMember(EntryOf(m), false))| == MemberSize(m)
    decreases m, 1
  {
    SizeExactly(m.1);
    QuotedSize(m.0);
    AsciiLength(":");
    Enclosed(Json.Quoted(m.0, false), ":", Wire(m.1));
    hide Utf8, Json.Compact, Json.Quoted, Size, ValueOf;
  }

  lemma {:induction false} MembersExactly(members: seq<(string, Tree)>)
    ensures |Utf8(Json.CompactMembers(EntriesOf(members), false))| == MembersSize(members)
    ensures |EntriesOf(members)| == |members|
    decreases members, 2
  {
    if members != [] {
      var rest := members[1..];
      EntryExactly(members[0]);
      MembersExactly(rest);
      var first, more := Json.CompactMember(EntryOf(members[0]), false), Json.CompactMembers(EntriesOf(rest), false);
      assert EntriesOf(members)[1..] == EntriesOf(rest);
      hide Utf8, Json.CompactMember, MemberSize, EntryOf;
      AsciiLength(",");
      Utf8Both(",", more);
      Utf8Both(first, "," + more);
      assert |members| == 1 ==> first + "" == first;
    }
  }

  /** A reader recovers the response from its text. */
  lemma WireRoundTrip(t: Tree)
    ensures Json.Read(Wire(t)) == Some(ValueOf(t))
  {
    Json.CompactRoundTrip(ValueOf(t), false);
    hide Json.Read, Json.Compact;
  }

  // ------------------------------------------------------------- upper bounds

  lemma {:induction false} AnyTextSize(s: string)
    ensures TextSize(s) <= 6 * |s|
  {
    if s != "" { AnyTextSize(s[1..]); }
  }

  lemma {:induction false} VisibleTextSize(s: string)
    requires NoControl(s)
    ensures TextSize(s) <= 2 * |Utf8(s)|
  {
    if s != "" {
      assert NoControl(s[1..]);
      assert !Control(s[0]);
      VisibleTextSize(s[1..]);
    }
  }

  lemma BoundedTextSize(s: string)
    ensures TextSize(BoundedText(s)) <= 2 * MAX_TEXT_BYTES
  {
    BoundedTextIdentity(s);
    VisibleTextSize(BoundedText(s));
  }

  lemma {:induction false} ItemsAtMost(items: seq<Tree>, bound: nat)
    requires forall i :: 0 <= i < |items| ==> Size(items[i]) <= bound
    ensures ItemsSize(items) <= |items| * (bound + 1)
  {
    if items != [] {
      ItemsAtMost(items[1..], bound);
      assert |items| * (bound + 1) == (|items| - 1) * (bound + 1) + bound + 1;
    }
  }

  lemma ListSize(items: seq<Tree>)
    ensures Size(List(items)) == 2 + ItemsSize(items)
  {
  }

  lemma {:induction false} MembersAtMost(members: seq<(string, Tree)>, bound: nat)
    requires forall i :: 0 <= i < |members| ==> MemberSize(members[i]) <= bound
    ensures MembersSize(members) <= |members| * (bound + 1)
  {
    if members != [] {
      MembersAtMost(members[1..], bound);
      assert |members| * (bound + 1) == (|members| - 1) * (bound + 1) + bound + 1;
    }
  }

  lemma {:induction false} MembersConcat(a: seq<(string, Tree)>, b: seq<(string, Tree)>)
    ensures MembersSize(a + b) <= MembersSize(a) + 1 + MembersSize(b)
  {
    if a == [] {
      assert a + b == b;
    } else {
      MembersConcat(a[1..], b);
      assert (a + b)[1..] == a[1..] + b;
      if |a| == 1 { assert a[1..] + b == b; }
    }
  }

  lemma SingleMember(name: string, value: Tree)
    ensures MembersSize([(name, value)]) <= 6 * |name| + 3 + Size(value)
  {
    AnyTextSize(name);
    hide TextSize;
    var m := (name, value);
    assert [m][1..] == [];
    assert MembersSize([m]) == MemberSize(m) + MembersSize([]);
  }

  /** A member whose name and value are short. */
  predicate Short(m: (string, Tree)) {
    && |m.0| <= 32
    && match m.1
       case Text(s) => TextSize(s) <= 512
       case Number(_) => true
       case Null => true
       case Flag(_) => true
       case _ => false
  }

  const SHORT: nat := 712

  lemma ShortMember(m: (string, Tree))
    requires Short(m)
    ensures MemberSize(m) <= SHORT
  {
    AnyTextSize(m.0);
    if m.1.Number? { U64Short(m.1.n); }
  }

  lemma ShortMembers(members: seq<(string, Tree)>)
    requires forall i :: 0 <= i < |members| ==> Short(members[i])
    ensures MembersSize(members) <= |members| * (SHORT + 1)
  {
    hide Short, MemberSize, MembersSize;
    forall i | 0 <= i < |members| ensures MemberSize(members[i]) <= SHORT { ShortMember(members[i]); }
    MembersAtMost(members, SHORT);
  }

  /** Timestamps in RFC 3339 form, and names of closed enumerations, are short. */
  type Name = s: string | |s| <= 40 witness ""

  type Counter = n: nat | n <= 0xffff_ffff_ffff_ffff

  function Optional(s: Option<Name>): Tree {
    match s
    case None => Null
    case Some(text) => Text(text)
  }

  lemma NameShort(s: string)
    requires |s| <= 71
    ensures TextSize(s) <= 512
  {
    AnyTextSize(s);
  }

  lemma OptionalShort(s: Option<Name>)
    ensures Optional(s).Text? ==> TextSize(Optional(s).text) <= 512
  {
    if s.Some? { NameShort(s.value); }
  }

  // ------------------------------------------------- what every page begins with

  function HeaderMembers(version: Name, kind: Name, networkId: Uuid): seq<(string, Tree)> {
    [("version", Text(version)), ("kind", Text(kind)), ("network_id", Text(UuidText(networkId)))]
  }

  function CursorMembers(next: Option<string>): seq<(string, Tree)> {
    if next.None? then [] else [("next_cursor", Text(next.value))]
  }

  lemma HeaderFits(version: Name, kind: Name, networkId: Uuid)
    ensures MembersSize(HeaderMembers(version, kind, networkId)) <= 3 * (SHORT + 1)
  {
    hide TextSize, UuidText;
    NameShort(version);
    NameShort(kind);
    NameShort(UuidText(networkId));
    ShortMembers(HeaderMembers(version, kind, networkId));
  }

  lemma CursorFits(next: Option<string>)
    requires next.Some? ==> TextSize(next.value) <= 512
    ensures MembersSize(CursorMembers(next)) <= SHORT + 1
  {
    hide TextSize;
    ShortMembers(CursorMembers(next));
  }
}
