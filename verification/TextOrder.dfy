/** The order of texts as map keys and as SQLite columns. */
module TextOrder {
  /** By code point, which is the byte order of UTF-8. */
  predicate KeyLeq(a: string, b: string) {
    if a == "" then true
    else if b == "" then false
    else if a[0] != b[0] then a[0] < b[0]
    else KeyLeq(a[1..], b[1..])
  }

  lemma KeyTotal(a: string, b: string)
    ensures KeyLeq(a, b) || KeyLeq(b, a)
    ensures KeyLeq(a, b) && KeyLeq(b, a) ==> a == b
  {
    if a != "" && b != "" && a[0] == b[0] {
      KeyTotal(a[1..], b[1..]);
      assert a == [a[0]] + a[1..] && b == [b[0]] + b[1..];
    }
  }

  lemma KeyTransitive(a: string, b: string, c: string)
    requires KeyLeq(a, b) && KeyLeq(b, c)
    ensures KeyLeq(a, c)
  {
  }

  predicate Less(a: string, b: string) { a != b && KeyLeq(a, b) }

  lemma LessOrder(a: string, b: string, c: string)
    ensures Less(a, b) && Less(b, c) ==> Less(a, c)
    ensures !(Less(a, b) && Less(b, a))
    ensures a != b ==> Less(a, b) || Less(b, a)
  {
    KeyTotal(a, b);
    KeyTotal(b, c);
    if KeyLeq(a, b) && KeyLeq(b, c) { KeyTransitive(a, b, c); }
  }
}
