/** The writers that append canonical JSON to a growing string. */
module CanonicalJsonWriter {
  import opened Json
  import opened CanonicalJson
  import opened Sorting

  class Output {
    var text: string

    constructor ()
      ensures text == ""
    {
      text := "";
    }

    method Push(s: string)
      modifies this
      ensures text == old(text) + s
    {
      text := text + s;
    }
  }

  lemma Joined(start: string, a: string, b: string, c: string)
    ensures start + a + b + c == start + (a + b + c)
    ensures b == "" ==> start + a + c == start + (a + b + c)
  {
    if b == "" { assert a + b + c == a + c; }
  }

  lemma Appended(start: string, a: string, b: string)
    ensures start + a + b == start + (a + b)
  {
  }

  lemma Listed(a: string, b: string, v: string)
    ensures a + ("," + (b + "," + v)) == (a + ("," + b)) + "," + v
    ensures a + ("," + ("" + "" + v)) == (a + "") + "," + v
  {
  }

  lemma {:induction false} EscapeSnoc(s: string, c: char)
    ensures Escape(s + [c], true) == Escape(s, true) + EscapeChar(c, true)
  {
    if s == "" {
      assert s + [c] == [c] && [c][1..] == "";
    } else {
      EscapeSnoc(s[1..], c);
      assert (s + [c])[1..] == s[1..] + [c];
    }
  }

  lemma {:induction false} UnitsSnoc(units: seq<Unit>, u: Unit)
    ensures EscapeUnits(units + [u]) == EscapeUnits(units) + UnicodeEscape(u)
  {
    if units == [] {
      assert units + [u] == [u] && [u][1..] == [];
    } else {
      hide UnicodeEscape;
      UnitsSnoc(units[1..], u);
      assert (units + [u])[1..] == units[1..] + [u];
      Appended(UnicodeEscape(units[0]), EscapeUnits(units[1..]), UnicodeEscape(u));
    }
  }

  lemma {:induction false} ItemsSnoc(items: seq<Value>, v: Value)
    ensures CompactItems(items + [v], true) == CompactItems(items, true) + (if items == [] then "" else ",") + Compact(v, true)
  {
    if items != [] {
      hide Compact;
      ItemsSnoc(items[1..], v);
      assert (items + [v])[1..] == items[1..] + [v];
      Listed(Compact(items[0], true), CompactItems(items[1..], true), Compact(v, true));
    }
  }

  lemma {:induction false} MembersSnoc(members: seq<Member>, m: Member)
    ensures CompactMembers(members + [m], true) ==
            CompactMembers(members, true) + (if members == [] then "" else ",") + CompactMember(m, true)
  {
    if members != [] {
      hide CompactMember;
      MembersSnoc(members[1..], m);
      assert (members + [m])[1..] == members[1..] + [m];
      Listed(CompactMember(members[0], true), CompactMembers(members[1..], true), CompactMember(m, true));
    }
  }

  lemma EscapedSoFar(start: string, s: string, i: nat)
    requires i < |s|
    ensures (start + Escape(s[..i], true)) + EscapeChar(s[i], true) == start + Escape(s[..i + 1], true)
  {
    hide Escape, EscapeChar;
    EscapeSnoc(s[..i], s[i]);
    assert s[..i + 1] == s[..i] + [s[i]];
    Appended(start, Escape(s[..i], true), EscapeChar(s[i], true));
  }

  lemma MembersSoFar(start: string, members: seq<Member>, i: nat)
    requires i < |members|
    ensures (start + CompactMembers(members[..i], true)) + (if i == 0 then "" else ",") + CompactMember(members[i], true) ==
            start + CompactMembers(members[..i + 1], true)
    ensures i == 0 ==> (start + CompactMembers(members[..i], true)) + CompactMember(members[i], true) ==
                       start + CompactMembers(members[..i + 1], true)
  {
    hide CompactMembers, CompactMember;
    MembersSnoc(members[..i], members[i]);
    assert members[..i + 1] == members[..i] + [members[i]];
    Joined(start, CompactMembers(members[..i], true), if i == 0 then "" else ",", CompactMember(members[i], true));
  }

  method WriteUnicodeEscapes(c: char, output: Output)
    modifies output
    ensures output.text == old(output.text) + EscapeUnits(CodeUnits(c))
  {
    var units := CodeUnits(c);
    for i := 0 to |units|
      invariant output.text == old(output.text) + EscapeUnits(units[..i])
    {
      output.Push(UnicodeEscape(units[i]));
      UnitsSnoc(units[..i], units[i]);
      assert units[..i + 1] == units[..i] + [units[i]];
    }
    assert units[..|units|] == units;
  }

  method WriteEscaped(c: char, output: Output)
    modifies output
    ensures output.text == old(output.text) + EscapeChar(c, true)
  {
    if c == '"' { output.Push("\\\""); }
    else if c == '\\' { output.Push("\\\\"); }
    else if c == 0x08 as char { output.Push("\\b"); }
    else if c == 0x0c as char { output.Push("\\f"); }
    else if c == '\n' { output.Push("\\n"); }
    else if c == '\r' { output.Push("\\r"); }
    else if c == '\t' { output.Push("\\t"); }
    else if Printable(c) { output.Push([c]); }
    else { WriteUnicodeEscapes(c, output); }
  }

  method WriteEscapedChars(value: string, output: Output)
    modifies output
    ensures output.text == old(output.text) + Escape(value, true)
  {
    for i := 0 to |value|
      invariant output.text == old(output.text) + Escape(value[..i], true)
    {
      EscapedSoFar(old(output.text), value, i);
      WriteEscaped(value[i], output);
    }
    assert value[..|value|] == value;
  }

  method WriteAsciiJsonString(value: string, output: Output)
    modifies output
    ensures output.text == old(output.text) + Quoted(value, true)
  {
    hide Escape;
    output.Push("\"");
    WriteEscapedChars(value, output);
    output.Push("\"");
  }

  method WriteCanonicalJson(value: Value, output: Output)
    modifies output
    ensures output.text == old(output.text) + Written(value)
    decreases value, 3
  {
    match value
    case Null => output.Push("null");
    case Bool(flag) => output.Push(if flag then "true" else "false");
    case Num(n) => output.Push(Numeral(n));
    case Real(numeral) => output.Push(numeral);
    case Str(text) => WriteAsciiJsonString(text, output);
    case Arr(items) => WriteArray(value, output);
    case Obj(members) => WriteObject(value, output);
  }

  lemma WrittenArray(value: Value)
    requires value.Arr?
    ensures Written(value) == "[" + CompactItems(CanonicalItems(value.items), true) + "]"
  {
  }

  lemma WrittenObject(value: Value)
    requires value.Obj?
    ensures forall m :: m in Sort(value.members, ByKey) ==> m in value.members
    ensures Written(value) == "{" + CompactMembers(CanonicalMembers(value, Sort(value.members, ByKey)), true) + "}"
  {
    SortedMembers(value.members);
  }

  lemma ItemsSoFar(start: string, items: seq<Value>, i: nat)
    requires i < |items|
    ensures (start + CompactItems(items[..i], true)) + (if i == 0 then "" else ",") + Compact(items[i], true) ==
            start + CompactItems(items[..i + 1], true)
    ensures i == 0 ==> (start + CompactItems(items[..i], true)) + Compact(items[i], true) == start + CompactItems(items[..i + 1], true)
  {
    hide CompactItems, Compact;
    ItemsSnoc(items[..i], items[i]);
    assert items[..i + 1] == items[..i] + [items[i]];
    Joined(start, CompactItems(items[..i], true), if i == 0 then "" else ",", Compact(items[i], true));
  }

  /** The values of an array, with commas between them. */
  method WriteItems(value: Value, output: Output)
    requires value.Arr?
    modifies output
    ensures output.text == old(output.text) + CompactItems(CanonicalItems(value.items), true)
    decreases value, 1
  {
    var items := value.items;
    ghost var canonical := CanonicalItems(items);
    for i := 0 to |items|
      invariant output.text == old(output.text) + CompactItems(canonical[..i], true)
    {
      if i != 0 { output.Push(","); }
      ItemsSoFar(old(output.text), canonical, i);
      WriteCanonicalJson(items[i], output);
    }
    assert canonical[..|items|] == canonical;
  }

  method WriteArray(value: Value, output: Output)
    requires value.Arr?
    modifies output
    ensures output.text == old(output.text) + Written(value)
    decreases value, 2
  {
    WrittenArray(value);
    hide *;
    output.Push("[");
    WriteItems(value, output);
    output.Push("]");
    Wrap(old(output.text), "[", CompactItems(CanonicalItems(value.items), true), "]");
  }

  lemma MemberText(key: string, member: Value)
    ensures CompactMember((key, Canonical(member)), true) == Quoted(key, true) + ":" + Written(member)
  {
  }

  lemma Wrap(before: string, open: string, inner: string, close: string)
    ensures before + open + inner + close == before + (open + inner + close)
  {
  }

  method WriteMember(key: string, member: Value, output: Output)
    modifies output
    ensures output.text == old(output.text) + CompactMember((key, Canonical(member)), true)
    decreases member, 4
  {
    MemberText(key, member);
    hide *;
    WriteAsciiJsonString(key, output);
    output.Push(":");
    WriteCanonicalJson(member, output);
    Wrap(old(output.text), Quoted(key, true), ":", Written(member));
  }

  /** The sorted entries of an object, with commas between them. */
  method WriteEntries(value: Value, entries: seq<Member>, output: Output)
    requires value.Obj? && forall m :: m in entries ==> m in value.members
    modifies output
    ensures output.text == old(output.text) + CompactMembers(CanonicalMembers(value, entries), true)
    decreases value, 1
  {
    ghost var canonical := CanonicalMembers(value, entries);
    for i := 0 to |entries|
      invariant output.text == old(output.text) + CompactMembers(canonical[..i], true)
    {
      var (key, member) := entries[i];
      if i != 0 { output.Push(","); }
      CanonicalMembersAt(value, entries, i);
      MembersSoFar(old(output.text), canonical, i);
      MemberSmaller(value, entries[i]);
      WriteMember(key, member, output);
    }
    assert canonical[..|entries|] == canonical;
  }

  method WriteObject(value: Value, output: Output)
    requires value.Obj?
    modifies output
    ensures output.text == old(output.text) + Written(value)
    decreases value, 2
  {
    var entries := Sort(value.members, ByKey);
    WrittenObject(value);
    hide *;
    output.Push("{");
    WriteEntries(value, entries, output);
    output.Push("}");
    Wrap(old(output.text), "{", CompactMembers(CanonicalMembers(value, entries), true), "}");
  }
}
