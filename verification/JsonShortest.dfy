/** Compact texts are the shortest: no text that a reader reads to the same value has
 *  fewer characters. So they hold no blank and escape no character that need not be.
 */
module JsonShortest {
  import opened Options
  import opened Encoding
  import opened Json
  import CanonicalJson
  import Sorting

  /** What the text is compared with: any text, or any text of printable ASCII. */
  predicate Allowed(s: string, ascii: bool) { ascii ==> Ascii(s) }

  lemma Skipped(s: string, ascii: bool)
    requires Allowed(s, ascii)
    ensures Allowed(SkipBlanks(s), ascii)
  {
    if s != "" && Blank(s[0]) { Skipped(s[1..], ascii); }
  }

  // ------------------------------------------------------------------ strings

  lemma UnitsLong(units: seq<Unit>)
    requires |units| <= 2
    ensures |EscapeUnits(units)| == 6 * |units|
  {
    EscapedUnits(units);
  }

  /** Reading a character takes at least as much text as writing it. */
  lemma CharShortest(s: string, ascii: bool)
    requires s != "" && Allowed(s, ascii) && ReadChar(s).Some?
    ensures |EscapeChar(ReadChar(s).value.0, ascii)| <= ReadChar(s).value.1
  {
    hide ReadUnicode, EscapeUnits, CodeUnits;
    var (c, n) := ReadChar(s).value;
    if s[0] != '\\' {
      PlainIsShort(c, ascii);
    } else if s[1] == 'u' {
      UnicodeShortest(s, ascii);
    }
  }

  lemma PlainIsShort(c: char, ascii: bool)
    requires c >= ' ' && c != '"' && c != '\\' && (ascii ==> Printable(c))
    ensures EscapeChar(c, ascii) == [c]
  {
    hide EscapeUnits, CodeUnits;
  }

  lemma UnicodeShortest(s: string, ascii: bool)
    requires ReadUnicode(s).Some?
    ensures |EscapeChar(ReadUnicode(s).value.0, ascii)| <= ReadUnicode(s).value.1
  {
    hide ReadUnit, EscapeUnits;
    var (c, n) := ReadUnicode(s).value;
    UnitsLong(CodeUnits(c));
  }

  lemma {:induction false} StringShortest(s: string, ascii: bool)
    requires Allowed(s, ascii) && ReadString(s).Some?
    ensures var (text, rest) := ReadString(s).value;
            |Escape(text, ascii)| + 1 + |rest| <= |s| && Allowed(rest, ascii)
    decreases |s|
  {
    if s[0] != '"' {
      var (c, n) := ReadChar(s).value;
      CharShortest(s, ascii);
      hide ReadChar, EscapeChar;
      StringShortest(s[n..], ascii);
      var (text, rest) := ReadString(s[n..]).value;
      assert ([c] + text)[1..] == text;
    }
  }

  // ------------------------------------------------------------------ numbers

  lemma {:induction false} RunIsDigits(s: string)
    ensures forall i :: 0 <= i < DigitRun(s) ==> Digit(s[i])
  {
    if s != "" && Digit(s[0]) {
      RunIsDigits(s[1..]);
      assert forall i :: 0 < i < DigitRun(s) ==> s[i] == s[1..][i - 1];
    }
  }

  lemma {:induction false} DigitsBelow(s: string)
    requires forall i :: 0 <= i < |s| ==> Digit(s[i])
    ensures 0 <= DecimalValue(s) < Power10(|s|)
  {
    if s != "" { DigitsBelow(s[..|s| - 1]); }
  }

  /** Digits name a number in no fewer places than its decimal text. */
  lemma DigitsShortest(s: string)
    requires s != "" && forall i :: 0 <= i < |s| ==> Digit(s[i])
    ensures DecimalValue(s) >= 0 && |Decimal(DecimalValue(s))| <= |s|
  {
    DigitsBelow(s);
    DecimalShort(DecimalValue(s), |s|);
  }

  lemma IntegerShortest(s: string, n: nat)
    requires s != "" && IntegerPart(s) == Some(n) && ReadInteger(s, n).Some?
    ensures var (v, rest) := ReadInteger(s, n).value;
            v.Num? && |Numeral(v.number)| + |rest| <= |s|
  {
    hide DigitRun, Decimal, DecimalValue;
    var sign := if s[0] == '-' then 1 else 0;
    RunIsDigits(s[sign..]);
    assert s[sign..n] == s[sign..][..n - sign];
    DigitsShortest(s[sign..n]);
    assert s[0..n] == s[..n];
  }

  lemma NumberShortest(s: string, ascii: bool)
    requires s != "" && Allowed(s, ascii) && ReadNumber(s).Some?
    ensures var (v, rest) := ReadNumber(s).value;
            |Compact(v, ascii)| + |rest| <= |s| && Allowed(rest, ascii)
  {
    hide IntegerPart, Tail, ReadInteger, Numeral, IsReal;
    var n := IntegerPart(s).value;
    var m := Tail(s[n..]).value;
    if m > 0 {
      RealFront(s, n, m);
    } else {
      IntegerShortest(s, n);
      IntegerRest(s, n);
    }
  }

  lemma IntegerRest(s: string, n: nat)
    requires 0 < n <= |s| && ReadInteger(s, n).Some?
    ensures ReadInteger(s, n).value.1 == s[n..]
  {
    hide DecimalValue;
  }

  // ------------------------------------------------------------------- values

  lemma {:induction false} ValueShortest(s: string, ascii: bool)
    requires Allowed(s, ascii) && ReadValue(s).Some?
    ensures var (v, rest) := ReadValue(s).value;
            |Compact(v, ascii)| + |rest| <= |s| && Allowed(rest, ascii)
    decreases |s|, 0
  {
    hide ReadArray, ReadObject, ReadString, ReadNumber, CompactItems, CompactMembers, Escape, Numeral, SkipBlanks;
    var t := SkipBlanks(s);
    Skipped(s, ascii);
    if Front("null", t) || Front("true", t) || Front("false", t) {
    } else if t[0] == '"' {
      StringShortest(t[1..], ascii);
    } else if t[0] == '[' {
      ArrayShortest(t[1..], ascii);
    } else if t[0] == '{' {
      ObjectShortest(t[1..], ascii);
    } else {
      NumberShortest(t, ascii);
    }
  }

  lemma {:induction false} ArrayShortest(s: string, ascii: bool)
    requires Allowed(s, ascii) && ReadArray(s).Some?
    ensures var (v, rest) := ReadArray(s).value;
            v.Arr? && |CompactItems(v.items, ascii)| + 1 + |rest| <= |s| && Allowed(rest, ascii)
    decreases |s|, 2
  {
    hide ReadItems, Compact, SkipBlanks;
    Skipped(s, ascii);
    if !Front("]", SkipBlanks(s)) { ItemsShortest(s, ascii); }
  }

  lemma {:induction false} ItemsShortest(s: string, ascii: bool)
    requires Allowed(s, ascii) && ReadItems(s).Some?
    ensures var (items, rest) := ReadItems(s).value;
            items != [] && |CompactItems(items, ascii)| + 1 + |rest| <= |s| && Allowed(rest, ascii)
    decreases |s|, 1
  {
    hide ReadValue, Compact, SkipBlanks;
    var (v, after) := ReadValue(s).value;
    ValueShortest(s, ascii);
    Skipped(after, ascii);
    var t := SkipBlanks(after);
    if Front("]", t) {
      assert [v][1..] == [];
    } else {
      ItemsShortest(t[1..], ascii);
      var items := ReadItems(t[1..]).value.0;
      assert ([v] + items)[1..] == items;
    }
  }

  lemma {:induction false} ObjectShortest(s: string, ascii: bool)
    requires Allowed(s, ascii) && ReadObject(s).Some?
    ensures var (v, rest) := ReadObject(s).value;
            v.Obj? && |CompactMembers(v.members, ascii)| + 1 + |rest| <= |s| && Allowed(rest, ascii)
    decreases |s|, 3
  {
    hide ReadMembers, CompactMember, SkipBlanks;
    Skipped(s, ascii);
    if !Front("}", SkipBlanks(s)) { MembersShortest(s, ascii); }
  }

  lemma {:induction false} MemberShortest(s: string, ascii: bool)
    requires Allowed(s, ascii) && ReadMember(s).Some?
    ensures var (m, rest) := ReadMember(s).value;
            |CompactMember(m, ascii)| + |rest| <= |s| && Allowed(rest, ascii)
    decreases |s|, 1
  {
    hide ReadValue, ReadString, Compact, Escape, SkipBlanks;
    var t := SkipBlanks(s);
    Skipped(s, ascii);
    StringShortest(t[1..], ascii);
    var after := ReadString(t[1..]).value.1;
    Skipped(after, ascii);
    ValueShortest(SkipBlanks(after)[1..], ascii);
  }

  lemma {:induction false} MembersShortest(s: string, ascii: bool)
    requires Allowed(s, ascii) && ReadMembers(s).Some?
    ensures var (members, rest) := ReadMembers(s).value;
            members != [] && |CompactMembers(members, ascii)| + 1 + |rest| <= |s| && Allowed(rest, ascii)
    decreases |s|, 2
  {
    hide ReadMember, CompactMember, SkipBlanks;
    var (m, after) := ReadMember(s).value;
    MemberShortest(s, ascii);
    Skipped(after, ascii);
    var t := SkipBlanks(after);
    if Front("}", t) {
      assert [m][1..] == [];
    } else {
      MembersShortest(t[1..], ascii);
      var members := ReadMembers(t[1..]).value.0;
      assert ([m] + members)[1..] == members;
    }
  }

  /** No text that reads as the value is shorter than its compact text; nor is one of
   *  printable ASCII shorter than its escaped text. */
  lemma CompactShortest(s: string, ascii: bool)
    requires Read(s).Some? && Allowed(s, ascii)
    ensures |Compact(Read(s).value, ascii)| <= |s|
  {
    hide ReadValue, Compact, SkipBlanks;
    ValueShortest(s, ascii);
  }

  // ------------------------------------------------------------- member order

  /** The length of the members' texts, each with a comma. */
  function Lengths(members: seq<Member>, ascii: bool): nat {
    if members == [] then 0 else |CompactMember(members[0], ascii)| + 1 + Lengths(members[1..], ascii)
  }

  lemma {:induction false} MembersLength(members: seq<Member>, ascii: bool)
    ensures |CompactMembers(members, ascii)| == if members == [] then 0 else Lengths(members, ascii) - 1
  {
    hide CompactMember;
    if members != [] {
      MembersLength(members[1..], ascii);
      if |members| == 1 { assert members[1..] == []; }
    }
  }

  lemma {:induction false} InsertLengths(m: Member, members: seq<Member>, ascii: bool)
    ensures Lengths(Sorting.Insert(m, members, CanonicalJson.ByKey), ascii) ==
            |CompactMember(m, ascii)| + 1 + Lengths(members, ascii)
  {
    hide CompactMember;
    var r := Sorting.Insert(m, members, CanonicalJson.ByKey);
    if members == [] {
      assert r == [m] && r[1..] == [];
    } else if CanonicalJson.ByKey(m, members[0]) {
      assert r == [m] + members && r[1..] == members;
    } else {
      InsertLengths(m, members[1..], ascii);
      assert r[1..] == Sorting.Insert(m, members[1..], CanonicalJson.ByKey);
    }
  }

  lemma {:induction false} SortLengths(members: seq<Member>, ascii: bool)
    ensures Lengths(Sorting.Sort(members, CanonicalJson.ByKey), ascii) == Lengths(members, ascii)
  {
    hide CompactMember;
    if members != [] {
      SortLengths(members[1..], ascii);
      InsertLengths(members[0], Sorting.Sort(members[1..], CanonicalJson.ByKey), ascii);
    }
  }

  /** Sorting the members of every object leaves the length of the text as it is. */
  lemma {:induction false} SameLength(v: Value, ascii: bool)
    ensures |Compact(CanonicalJson.Canonical(v), ascii)| == |Compact(v, ascii)|
    decreases v, 0
  {
    match v
    case Arr(items) => ItemsSameLength(items, ascii);
    case Obj(members) =>
      CanonicalJson.SortedMembers(members);
      var s := Sorting.Sort(members, CanonicalJson.ByKey);
      MembersSameLength(v, s, ascii);
      SortLengths(members, ascii);
      MembersLength(members, ascii);
      MembersLength(CanonicalJson.CanonicalMembers(v, s), ascii);
      hide CanonicalJson.CanonicalMembers, Lengths, CompactMembers, Sorting.Sort;
    case _ =>
  }

  lemma {:induction false} ItemsSameLength(items: seq<Value>, ascii: bool)
    ensures |CompactItems(CanonicalJson.CanonicalItems(items), ascii)| == |CompactItems(items, ascii)|
    decreases items, 1
  {
    hide Compact, CanonicalJson.Canonical;
    if items != [] {
      SameLength(items[0], ascii);
      ItemsSameLength(items[1..], ascii);
      assert CanonicalJson.CanonicalItems(items)[1..] == CanonicalJson.CanonicalItems(items[1..]);
    }
  }

  lemma {:induction false} MembersSameLength(v: Value, members: seq<Member>, ascii: bool)
    requires v.Obj? && forall m :: m in members ==> m in v.members
    ensures Lengths(CanonicalJson.CanonicalMembers(v, members), ascii) == Lengths(members, ascii)
    decreases v, 0, |members|
  {
    hide Compact, CanonicalJson.Canonical;
    if members != [] {
      CanonicalJson.MemberSmaller(v, members[0]);
      SameLength(members[0].1, ascii);
      MembersSameLength(v, members[1..], ascii);
      var c := CanonicalJson.CanonicalMembers(v, members);
      assert c[1..] == CanonicalJson.CanonicalMembers(v, members[1..]);
    }
  }

  /** Of all the texts that read as the value with its members in any order, none is
   *  shorter than the stored one, and none in printable ASCII is shorter than the hashed
   *  one. */
  lemma CanonicalShortest(v: Value, s: string)
    requires Read(s).Some? && CanonicalJson.Canonical(Read(s).value) == CanonicalJson.Canonical(v)
    ensures |CanonicalJson.Stored(v)| <= |s|
    ensures Ascii(s) ==> |CanonicalJson.Written(v)| <= |s|
  {
    hide Read, Compact, CanonicalJson.Canonical;
    var w := Read(s).value;
    CompactShortest(s, false);
    SameLength(w, false);
    if Ascii(s) {
      CompactShortest(s, true);
      SameLength(w, true);
    }
  }

  // -------------------------------------------------------------- lower case

  predicate NoCapital(s: string) { forall i :: 0 <= i < |s| ==> !('A' <= s[i] <= 'Z') }

  lemma DigitLower(n: nat)
    requires n < 16
    ensures !('A' <= HexDigit(n) <= 'Z')
  {
  }

  lemma UnitLower(unit: Unit)
    ensures NoCapital(UnicodeEscape(unit))
  {
    DigitLower(unit / 0x1000);
    DigitLower(unit / 0x100 % 16);
    DigitLower(unit / 0x10 % 16);
    DigitLower(unit % 16);
    hide HexDigit;
  }

  lemma UnitsLower(units: seq<Unit>)
    requires 1 <= |units| <= 2
    ensures NoCapital(EscapeUnits(units))
  {
    hide UnicodeEscape, EscapeUnits;
    EscapedUnits(units);
    UnitLower(units[0]);
    if |units| == 2 { UnitLower(units[1]); }
  }

  /** A character that does not stand for itself is escaped without capital letters. */
  lemma EscapesLower(c: char, ascii: bool)
    requires EscapeChar(c, ascii) != [c]
    ensures NoCapital(EscapeChar(c, ascii))
  {
    hide CodeUnits, EscapeUnits;
    UnitsLower(CodeUnits(c));
  }
}
