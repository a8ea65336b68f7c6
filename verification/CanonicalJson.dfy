/** Fleet's canonical JSON: object members in key order, compact, ASCII only. */
module CanonicalJson {
  import opened Options
  import opened Json
  import opened Sorting
  import opened TextOrder

  const ByKey: (Member, Member) -> bool := (a: Member, b: Member) => KeyLeq(a.0, b.0)

  lemma ByKeyOrder()
    ensures Order(ByKey)
  {
    forall x: Member, y: Member ensures ByKey(x, y) || ByKey(y, x) { KeyTotal(x.0, y.0); }
    forall x: Member, y: Member, z: Member | ByKey(x, y) && ByKey(y, z) ensures ByKey(x, z) {
      KeyTransitive(x.0, y.0, z.0);
    }
  }

  /** A JSON map holds each key once. */
  predicate UniqueKeys(members: seq<Member>) {
    forall i, j :: 0 <= i < j < |members| ==> members[i].0 != members[j].0
  }

  /** The value with the members of every object, at any depth, in key order. */
  function Canonical(v: Value): Value
    decreases v, 0
  {
    match v
    case Arr(items) => Arr(CanonicalItems(items))
    case Obj(members) =>
      SortedMembers(members);
      Obj(CanonicalMembers(v, Sort(members, ByKey)))
    case _ => v
  }

  function CanonicalItems(items: seq<Value>): (r: seq<Value>)
    ensures |r| == |items| && forall i :: 0 <= i < |r| ==> r[i] == Canonical(items[i])
    decreases items, 1
  {
    if items == [] then [] else [Canonical(items[0])] + CanonicalItems(items[1..])
  }

  function CanonicalMembers(v: Value, members: seq<Member>): (r: seq<Member>)
    requires v.Obj? && forall m :: m in members ==> m in v.members
    ensures |r| == |members|
    decreases v, 0, |members|
  {
    if members == [] then []
    else
      MemberSmaller(v, members[0]);
      [(members[0].0, Canonical(members[0].1))] + CanonicalMembers(v, members[1..])
  }

  lemma CanonicalMembersAt(v: Value, members: seq<Member>, i: nat)
    requires v.Obj? && (forall m :: m in members ==> m in v.members) && i < |members|
    ensures CanonicalMembers(v, members)[i] == (members[i].0, Canonical(members[i].1))
  {
    if i > 0 {
      CanonicalMembersAt(v, members[1..], i - 1);
      assert members[1..][i - 1] == members[i];
    }
    hide Canonical;
  }

  lemma MemberSmaller(v: Value, m: Member)
    requires v.Obj? && m in v.members
    ensures m.1 < v
  {
    var i :| 0 <= i < |v.members| && v.members[i] == m;
  }

  lemma SortedMembers(members: seq<Member>)
    ensures forall m :: m in Sort(members, ByKey) <==> m in members
  {
    forall m ensures m in Sort(members, ByKey) <==> m in members {
      SameElements(Sort(members, ByKey), members, m);
    }
  }

  /** The text that is hashed. */
  function Written(v: Value): string { Compact(Canonical(v), true) }

  /** A reader recovers the value up to the order of its members, and the text
   *  consists of printable ASCII only. */
  lemma WrittenRoundTrip(v: Value)
    ensures Read(Written(v)) == Some(Canonical(v)) && Ascii(Written(v))
  {
    CompactRoundTrip(Canonical(v), true);
    CompactAscii(Canonical(v));
  }

  /** Two values have one text exactly when they differ in member order at most. */
  lemma SameTextExactly(v: Value, w: Value)
    ensures Written(v) == Written(w) <==> Canonical(v) == Canonical(w)
  {
    WrittenRoundTrip(v);
    WrittenRoundTrip(w);
  }

  /** The text that the state store keeps: `serde_json` of a key-ordered map. */
  function Stored(v: Value): string { Compact(Canonical(v), false) }

  /** Stored texts too are equal exactly for values that differ in member order. */
  lemma SameStoredExactly(v: Value, w: Value)
    ensures Stored(v) == Stored(w) <==> Canonical(v) == Canonical(w)
  {
    CompactRoundTrip(Canonical(v), false);
    CompactRoundTrip(Canonical(w), false);
  }

  lemma UniqueKeysApart(members: seq<Member>)
    requires UniqueKeys(members)
    ensures Antisymmetric(members, ByKey)
  {
    forall x: Member, y: Member | x in members && y in members && ByKey(x, y) && ByKey(y, x)
      ensures x == y
    {
      KeyTotal(x.0, y.0);
      var i :| 0 <= i < |members| && members[i] == x;
      var j :| 0 <= j < |members| && members[j] == y;
    }
  }

  /** The text of an object does not depend on the order its members came in. */
  lemma MemberOrderIrrelevant(a: seq<Member>, b: seq<Member>)
    requires UniqueKeys(a) && multiset(a) == multiset(b)
    ensures Written(Obj(a)) == Written(Obj(b))
  {
    ByKeyOrder();
    SortSorts(a, ByKey);
    SortSorts(b, ByKey);
    UniqueKeysApart(a);
    SortAntisymmetric(a, ByKey, a);
    SortedUnique(Sort(a, ByKey), Sort(b, ByKey), ByKey);
    SortedMembers(a);
    SortedMembers(b);
    SameCanonicalMembers(Obj(a), Obj(b), Sort(a, ByKey));
  }

  lemma SameCanonicalMembers(v: Value, w: Value, members: seq<Member>)
    requires v.Obj? && w.Obj?
    requires forall m :: m in members ==> m in v.members
    requires forall m :: m in members ==> m in w.members
    ensures CanonicalMembers(v, members) == CanonicalMembers(w, members)
  {
  }

  // ------------------------------------------------------------ idempotence

  lemma {:induction false} InsertFirst(m: Member, rest: seq<Member>)
    requires rest == [] || ByKey(m, rest[0])
    ensures Insert(m, rest, ByKey) == [m] + rest
  {
  }

  lemma {:induction false} SortSorted(members: seq<Member>)
    requires Sorted(members, ByKey)
    ensures Sort(members, ByKey) == members
  {
    if members != [] {
      var rest := members[1..];
      assert rest != [] ==> rest[0] == members[1];
      SortedTail(members, ByKey);
      InsertFirst(members[0], rest);
      hide Sorted, Insert;
      SortSorted(rest);
      assert members == [members[0]] + rest;
    }
  }

  lemma CanonicalObject(members: seq<Member>)
    ensures var c := Canonical(Obj(members));
            c.Obj? && Sorted(c.members, ByKey) && |c.members| == |members|
            && forall i :: 0 <= i < |members| ==>
                 Sort(members, ByKey)[i] in members
                 && c.members[i] == (Sort(members, ByKey)[i].0, Canonical(Sort(members, ByKey)[i].1))
  {
    ByKeyOrder();
    SortSorts(members, ByKey);
    SortedMembers(members);
    var s := Sort(members, ByKey);
    var ca := CanonicalMembers(Obj(members), s);
    assert Canonical(Obj(members)) == Obj(ca);
    hide Canonical, Sort, CanonicalMembers;
    forall i | 0 <= i < |s| ensures ca[i] == (s[i].0, Canonical(s[i].1)) {
      CanonicalMembersAt(Obj(members), s, i);
    }
  }

  /** A canonical value is its own canonical value. */
  lemma {:induction false} CanonicalIdempotent(v: Value)
    ensures Canonical(Canonical(v)) == Canonical(v)
    decreases v, 1
  {
    match v
    case Arr(items) => ItemsIdempotent(items);
    case Obj(members) => ObjectIdempotent(v);
    case _ =>
  }

  lemma {:induction false} ItemsIdempotent(items: seq<Value>)
    ensures CanonicalItems(CanonicalItems(items)) == CanonicalItems(items)
    decreases items
  {
    var c := CanonicalItems(items);
    forall i | 0 <= i < |items| ensures CanonicalItems(c)[i] == c[i] {
      CanonicalIdempotent(items[i]);
    }
  }

  lemma {:induction false} ObjectIdempotent(v: Value)
    requires v.Obj?
    ensures Canonical(Canonical(v)) == Canonical(v)
    decreases v, 0
  {
    CanonicalObject(v.members);
    var c := Canonical(v).members;
    SortSorted(c);
    CanonicalObject(c);
    var s := Sort(v.members, ByKey);
    forall i | 0 <= i < |c| ensures Canonical(Obj(c)).members[i] == c[i] {
      MemberSmaller(v, s[i]);
      CanonicalIdempotent(s[i].1);
    }
    assert Canonical(v) == Obj(c);
  }

  /** A stored text parsed and stored again is the same text, so the store's check
   *  that a body is canonical accepts it. */
  lemma StoredIsCanonical(v: Value)
    ensures Read(Stored(v)) == Some(Canonical(v)) && Stored(Canonical(v)) == Stored(v)
  {
    CompactRoundTrip(Canonical(v), false);
    CanonicalIdempotent(v);
  }

  /** The canonical members hold the canonical value under the key of a member. */
  lemma CanonicalMember(a: seq<Member>, m: Member)
    requires UniqueKeys(a) && m in a
    ensures UniqueKeys(Canonical(Obj(a)).members)
    ensures (m.0, Canonical(m.1)) in Canonical(Obj(a)).members
  {
    SortedMembers(a);
    SortKeepsUniqueKeys(a);
    var s := Sort(a, ByKey);
    var ca := CanonicalMembers(Obj(a), s);
    assert Canonical(Obj(a)) == Obj(ca);
    forall i | 0 <= i < |s| ensures ca[i] == (s[i].0, Canonical(s[i].1)) {
      CanonicalMembersAt(Obj(a), s, i);
    }
    var i :| 0 <= i < |s| && s[i] == m;
    assert ca[i] == (m.0, Canonical(m.1));
  }

  /** Equal texts hold equal values under equal keys. */
  lemma SameValueUnderKey(a: seq<Member>, b: seq<Member>, key: string, x: Value, y: Value)
    requires UniqueKeys(a) && UniqueKeys(b) && (key, x) in a && (key, y) in b
    requires Canonical(Obj(a)) == Canonical(Obj(b))
    ensures Canonical(x) == Canonical(y)
  {
    CanonicalMember(a, (key, x));
    CanonicalMember(b, (key, y));
    hide Canonical, UniqueKeys;
    OneValue(Canonical(Obj(a)).members, key, Canonical(x), Canonical(y));
  }

  lemma OneValue(members: seq<Member>, key: string, x: Value, y: Value)
    requires UniqueKeys(members) && (key, x) in members && (key, y) in members
    ensures x == y
  {
    var i :| 0 <= i < |members| && members[i] == (key, x);
    var j :| 0 <= j < |members| && members[j] == (key, y);
  }

  lemma SortKeepsUniqueKeys(a: seq<Member>)
    requires UniqueKeys(a)
    ensures UniqueKeys(Sort(a, ByKey))
  {
    var s := Sort(a, ByKey);
    forall i, j | 0 <= i < j < |s|
      ensures s[i].0 != s[j].0
    {
      if s[i].0 == s[j].0 {
        SameElements(s, a, s[i]);
        SameElements(s, a, s[j]);
        var k :| 0 <= k < |a| && a[k] == s[i];
        var m :| 0 <= m < |a| && a[m] == s[j];
        assert k == m;
        TwiceInMultiset(s, i, j);
        OnceInMultiset(a, k);
        assert false;
      }
    }
  }

  lemma TwiceInMultiset(s: seq<Member>, i: nat, j: nat)
    requires i < j < |s| && s[i] == s[j]
    ensures multiset(s)[s[i]] >= 2
  {
    assert s == s[..i] + [s[i]] + s[i + 1..j] + [s[j]] + s[j + 1..];
  }

  lemma OnceInMultiset(s: seq<Member>, i: nat)
    requires i < |s| && UniqueKeys(s)
    ensures multiset(s)[s[i]] == 1
  {
    DistinctMultiset(s);
  }
}
