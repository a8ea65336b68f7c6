/** Canonical texts read back: their keys in order at every depth, and nothing else
 *  about the value changed.
 */
module CanonicalOrder {
  import opened Options
  import opened Json
  import opened CanonicalJson
  import opened Encoding
  import Sorting
  import TextOrder

  /** One text comes before another, or is it: they agree on the first `k` characters,
   *  and then the first ends or has the smaller character. */
  predicate AgreesUpTo(a: string, b: string, k: nat) {
    && k <= |a| && k <= |b| && a[..k] == b[..k]
    && (k == |a| || (k < |b| && a[k] < b[k]))
  }

  ghost predicate Precedes(a: string, b: string) { exists k: nat :: AgreesUpTo(a, b, k) }

  /** At every depth, each key precedes the next. */
  ghost predicate InOrder(v: Value) {
    match v
    case Arr(items) => forall i :: 0 <= i < |items| ==> InOrder(items[i])
    case Obj(members) =>
      && (forall i :: 0 <= i && i + 1 < |members| ==> Precedes(members[i].0, members[i + 1].0))
      && (forall i :: 0 <= i < |members| ==> InOrder(members[i].1))
    case _ => true
  }

  /** One step into a value: an item by its place, or a member by its key. */
  datatype Way = Item(place: nat) | Under(key: string)

  /** What a value is on the outside. */
  datatype Shape = Scalar(value: Value) | ArrayOf(items: nat) | ObjectOf(members: nat)

  function ShapeOf(v: Value): Shape {
    match v
    case Arr(items) => ArrayOf(|items|)
    case Obj(members) => ObjectOf(|members|)
    case _ => Scalar(v)
  }

  /** Following these steps into the value one comes to something of this shape. */
  ghost predicate Reaches(v: Value, path: seq<Way>, shape: Shape)
    decreases |path|
  {
    if path == [] then ShapeOf(v) == shape
    else
      match path[0]
      case Item(i) => v.Arr? && i < |v.items| && Reaches(v.items[i], path[1..], shape)
      case Under(key) =>
        v.Obj? && exists i :: 0 <= i < |v.members| && v.members[i].0 == key && Reaches(v.members[i].1, path[1..], shape)
  }

  lemma {:induction false} LeqPrecedes(a: string, b: string)
    requires TextOrder.KeyLeq(a, b)
    ensures Precedes(a, b)
  {
    if a == "" || a[0] != b[0] {
      assert AgreesUpTo(a, b, 0);
    } else {
      LeqPrecedes(a[1..], b[1..]);
      var k: nat :| AgreesUpTo(a[1..], b[1..], k);
      assert a[..k + 1] == [a[0]] + a[1..][..k] && b[..k + 1] == [b[0]] + b[1..][..k];
      assert AgreesUpTo(a, b, k + 1);
    }
  }

  lemma {:induction false} CanonicalOrdered(v: Value)
    ensures InOrder(Canonical(v))
    decreases v
  {
    match v
    case Arr(items) =>
      forall i | 0 <= i < |items| ensures InOrder(Canonical(items[i])) { CanonicalOrdered(items[i]); }
    case Obj(members) =>
      CanonicalObject(members);
      var c := Canonical(v).members;
      var s := Sorting.Sort(members, ByKey);
      forall i | 0 <= i && i + 1 < |c| ensures Precedes(c[i].0, c[i + 1].0) {
        assert ByKey(c[i], c[i + 1]);
        LeqPrecedes(c[i].0, c[i + 1].0);
      }
      forall i | 0 <= i < |c| ensures InOrder(c[i].1) {
        MemberSmaller(v, s[i]);
        CanonicalOrdered(s[i].1);
      }
    case _ =>
  }

  /** A value and its canonical form are the same along every path. */
  lemma {:induction false} SamePaths(v: Value, path: seq<Way>, shape: Shape)
    ensures Reaches(v, path, shape) <==> Reaches(Canonical(v), path, shape)
    decreases |path|, 0
  {
    if v.Obj? { CanonicalObject(v.members); }
    hide Sorting.Sort, Sorting.Sorted, CanonicalMembers;
    if path != [] {
      match path[0]
      case Item(i) => if v.Arr? && i < |v.items| { SamePaths(v.items[i], path[1..], shape); }
      case Under(key) => if v.Obj? { SameUnder(v, key, path[1..], shape); }
    }
  }

  lemma {:induction false} SameUnder(v: Value, key: string, rest: seq<Way>, shape: Shape)
    requires v.Obj?
    ensures var c := Canonical(v);
            && c.Obj?
            && ((exists i :: 0 <= i < |v.members| && v.members[i].0 == key && Reaches(v.members[i].1, rest, shape)) <==>
                (exists j :: 0 <= j < |c.members| && c.members[j].0 == key && Reaches(c.members[j].1, rest, shape)))
    decreases |rest|, 1
  {
    hide Reaches, Sorting.Sort, Sorting.Sorted;
    CanonicalObject(v.members);
    SortedMembers(v.members);
    var s := Sorting.Sort(v.members, ByKey);
    var c := Canonical(v).members;
    hide Canonical;
    if i :| 0 <= i < |v.members| && v.members[i].0 == key && Reaches(v.members[i].1, rest, shape) {
      assert v.members[i] in s;
      var j :| 0 <= j < |s| && s[j] == v.members[i];
      SamePaths(s[j].1, rest, shape);
      assert c[j].0 == key && Reaches(c[j].1, rest, shape);
    }
    if j :| 0 <= j < |c| && c[j].0 == key && Reaches(c[j].1, rest, shape) {
      assert s[j] in v.members;
      var i :| 0 <= i < |v.members| && v.members[i] == s[j];
      SamePaths(s[j].1, rest, shape);
      assert v.members[i].0 == key && Reaches(v.members[i].1, rest, shape);
    }
  }

  /** The value read back from the written text has its keys in order at every depth,
   *  and along every path it is the value that was written. */
  lemma WrittenInOrder(v: Value, path: seq<Way>, shape: Shape)
    ensures var back := Read(Written(v));
            back.Some? && InOrder(back.value) && (Reaches(back.value, path, shape) <==> Reaches(v, path, shape))
  {
    WrittenRoundTrip(v);
    CanonicalOrdered(v);
    SamePaths(v, path, shape);
    hide Read, Written, Canonical, InOrder, Reaches;
  }

  /** So for the stored text. */
  lemma StoredInOrder(v: Value, path: seq<Way>, shape: Shape)
    ensures var back := Read(Stored(v));
            back.Some? && InOrder(back.value) && (Reaches(back.value, path, shape) <==> Reaches(v, path, shape))
  {
    StoredIsCanonical(v);
    CanonicalOrdered(v);
    SamePaths(v, path, shape);
    hide Read, Stored, Canonical, InOrder, Reaches;
  }

  // --------------------------------------------------- the order of the bytes

  predicate BytesAgreeUpTo(x: seq<byte>, y: seq<byte>, k: nat) {
    && k <= |x| && k <= |y| && x[..k] == y[..k]
    && (k == |x| || (k < |y| && x[k] < y[k]))
  }

  /** Where the encodings of two characters part. */
  function PartAt(c: char, d: char): nat {
    var x, y := EncodeChar(c), EncodeChar(d);
    if x[0] != y[0] || |x| == 1 || |y| == 1 then 0
    else if x[1] != y[1] || |x| == 2 || |y| == 2 then 1
    else if x[2] != y[2] || |x| == 3 || |y| == 3 then 2 else 3
  }

  /** How many bytes a character takes, by its range. */
  function Width(c: char): nat {
    if c as int < 0x80 then 1 else if c as int < 0x800 then 2 else if c as int < 0x10000 then 3 else 4
  }

  lemma WidthOf(c: char)
    ensures |EncodeChar(c)| == Width(c)
  {
  }

  /** A smaller character has the smaller byte where the encodings part. */
  lemma CharBytes(c: char, d: char)
    requires c < d
    ensures var x, y, m := EncodeChar(c), EncodeChar(d), PartAt(c, d);
            m < |x| && m < |y| && x[..m] == y[..m] && x[m] < y[m]
  {
    if Width(c) < Width(d) { WiderFirst(c, d); }
    else if Width(c) == 3 { ThreeBytes(c, d); }
    else if Width(c) == 4 { FourBytes(c, d); }
    else { OneOrTwoBytes(c, d); }
    hide EncodeChar;
  }

  lemma WiderFirst(c: char, d: char)
    requires Width(c) < Width(d)
    ensures EncodeChar(c)[0] < EncodeChar(d)[0] && PartAt(c, d) == 0
  {
  }

  lemma OneOrTwoBytes(c: char, d: char)
    requires c < d && Width(c) == Width(d) <= 2
    ensures var x, y, m := EncodeChar(c), EncodeChar(d), PartAt(c, d);
            m < |x| && m < |y| && x[..m] == y[..m] && x[m] < y[m]
  {
    SixBits(c as nat);
    SixBits(d as nat);
  }

  lemma ThreeBytes(c: char, d: char)
    requires c < d && Width(c) == Width(d) == 3
    ensures var x, y, m := EncodeChar(c), EncodeChar(d), PartAt(c, d);
            m < |x| && m < |y| && x[..m] == y[..m] && x[m] < y[m]
  {
    SixBits(c as nat);
    SixBits(d as nat);
  }

  lemma FourBytes(c: char, d: char)
    requires c < d && Width(c) == Width(d) == 4
    ensures var x, y, m := EncodeChar(c), EncodeChar(d), PartAt(c, d);
            m < |x| && m < |y| && x[..m] == y[..m] && x[m] < y[m]
  {
    SixBits(c as nat);
    SixBits(d as nat);
  }

  lemma Utf8Head(s: string)
    requires s != ""
    ensures Utf8(s) == EncodeChar(s[0]) + Utf8(s[1..])
  {
  }

  lemma PartIn(p: seq<byte>, x: seq<byte>, y: seq<byte>, u: seq<byte>, v: seq<byte>, m: nat)
    requires m < |x| && m < |y| && x[..m] == y[..m] && x[m] < y[m]
    ensures BytesAgreeUpTo(p + (x + u), p + (y + v), |p| + m)
  {
    var s, t := p + (x + u), p + (y + v);
    assert s[..|p| + m] == p + x[..m] && t[..|p| + m] == p + y[..m];
  }

  lemma FrontInBytes(a: string, b: string)
    requires a <= b
    ensures BytesAgreeUpTo(Utf8(a), Utf8(b), |Utf8(a)|)
  {
    hide Utf8;
    assert b == a + b[|a|..];
    Utf8Join(a, b[|a|..]);
  }

  lemma PartInBytes(a: string, b: string, k: nat)
    requires k < |a| && k < |b| && a[..k] == b[..k] && a[k] < b[k]
    ensures BytesAgreeUpTo(Utf8(a), Utf8(b), |Utf8(a[..k])| + PartAt(a[k], b[k]))
  {
    hide EncodeChar, Utf8, PartAt, BytesAgreeUpTo;
    Cut(a, k);
    Cut(b, k);
    CharBytes(a[k], b[k]);
    PartIn(Utf8(a[..k]), EncodeChar(a[k]), EncodeChar(b[k]), Utf8(a[k + 1..]), Utf8(b[k + 1..]), PartAt(a[k], b[k]));
  }

  lemma Cut(s: string, k: nat)
    requires k < |s|
    ensures Utf8(s) == Utf8(s[..k]) + (EncodeChar(s[k]) + Utf8(s[k + 1..]))
  {
    hide EncodeChar, Utf8;
    assert s == s[..k] + s[k..] && s[k..][1..] == s[k + 1..];
    Utf8Join(s[..k], s[k..]);
    Utf8Head(s[k..]);
  }

  /** Texts are compared by their UTF-8 bytes, which is the order of their characters. */
  lemma PrecedesInBytes(a: string, b: string)
    requires Precedes(a, b)
    ensures exists n: nat :: BytesAgreeUpTo(Utf8(a), Utf8(b), n)
  {
    hide EncodeChar, Utf8, PartAt, BytesAgreeUpTo;
    var k: nat :| AgreesUpTo(a, b, k);
    if k == |a| {
      assert a[..k] == a;
      FrontInBytes(a, b);
    } else {
      PartInBytes(a, b, k);
    }
  }
}
