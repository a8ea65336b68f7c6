/** What a reader finds in the texts made of a desired projection: the document whose
 *  hash is taken, and the body expected back.
 */
module DocumentText {
  import opened Options
  import opened Encoding
  import opened Json
  import opened CanonicalJson
  import opened CanonicalOrder
  import opened DesiredProjection
  import DesiredBody
  import DesiredProjectionProofs
  import GeneratedBody
  import Document = ProjectionDocument
  import Sorting

  /** The value has this text under this key. */
  ghost predicate Says(v: Value, key: string, text: string) { Reaches(v, [Under(key)], Scalar(Str(text))) }

  /** ... and this text under a key inside the object of another key. */
  ghost predicate SaysInside(v: Value, outer: string, key: string, text: string) {
    Reaches(v, [Under(outer), Under(key)], Scalar(Str(text)))
  }

  lemma MemberSays(members: seq<Member>, i: nat, key: string, text: string)
    requires i < |members| && members[i] == (key, Str(text))
    ensures Says(Obj(members), key, text)
  {
    var v, path, shape := Obj(members), [Under(key)], Scalar(Str(text));
    assert path[1..] == [];
    assert v.members[i].0 == key && Reaches(v.members[i].1, path[1..], shape);
  }

  lemma MemberSaysInside(members: seq<Member>, i: nat, outer: string, inner: seq<Member>, j: nat, key: string, text: string)
    requires i < |members| && members[i] == (outer, Obj(inner)) && j < |inner| && inner[j] == (key, Str(text))
    ensures SaysInside(Obj(members), outer, key, text)
  {
    var v, path, shape := Obj(members), [Under(outer), Under(key)], Scalar(Str(text));
    assert path[1..] == [Under(key)];
    MemberSays(inner, j, key, text);
    assert v.members[i].0 == outer && Reaches(v.members[i].1, path[1..], shape);
  }

  /** A text field is read back from the written text of its object. */
  lemma WrittenMember(m: seq<Member>, i: nat, key: string, text: string)
    requires i < |m| && m[i] == (key, Str(text))
    ensures Read(Written(Obj(m))).Some? && Says(Read(Written(Obj(m))).value, key, text)
  {
    hide Reaches, InOrder, Read, Written;
    MemberSays(m, i, key, text);
    WrittenInOrder(Obj(m), [Under(key)], Scalar(Str(text)));
  }

  lemma WrittenInside(m: seq<Member>, i: nat, outer: string, inner: seq<Member>, j: nat, key: string, text: string)
    requires i < |m| && m[i] == (outer, Obj(inner)) && j < |inner| && inner[j] == (key, Str(text))
    ensures Read(Written(Obj(m))).Some? && SaysInside(Read(Written(Obj(m))).value, outer, key, text)
  {
    hide Reaches, InOrder, Read, Written;
    MemberSaysInside(m, i, outer, inner, j, key, text);
    WrittenInOrder(Obj(m), [Under(outer), Under(key)], Scalar(Str(text)));
  }

  /** ... and from the stored text. */
  lemma StoredMember(m: seq<Member>, i: nat, key: string, text: string)
    requires i < |m| && m[i] == (key, Str(text))
    ensures Read(Stored(Obj(m))).Some? && Says(Read(Stored(Obj(m))).value, key, text)
  {
    hide Reaches, InOrder, Read, Stored;
    MemberSays(m, i, key, text);
    StoredInOrder(Obj(m), [Under(key)], Scalar(Str(text)));
  }

  lemma StoredInside(m: seq<Member>, i: nat, outer: string, inner: seq<Member>, j: nat, key: string, text: string)
    requires i < |m| && m[i] == (outer, Obj(inner)) && j < |inner| && inner[j] == (key, Str(text))
    ensures Read(Stored(Obj(m))).Some? && SaysInside(Read(Stored(Obj(m))).value, outer, key, text)
  {
    hide Reaches, InOrder, Read, Stored;
    MemberSaysInside(m, i, outer, inner, j, key, text);
    StoredInOrder(Obj(m), [Under(outer), Under(key)], Scalar(Str(text)));
  }

  // ------------------------------------------------------------------- fields

  /** The operation that brings an enrollment about. */
  function OperationText(e: Enrollment): string {
    if e == Pending then "upsert" else if e == Disabled then "disable" else "remove"
  }

  /** The state Fleet keeps for it. */
  function StateText(e: Enrollment): string {
    if e == Pending then "active" else if e == Disabled then "disabled" else "removed"
  }

  /** The value names the projection's generations. */
  ghost predicate SaysGenerations(v: Value, p: Projection) {
    && Says(v, "projection_generation", Decimal(p.projectionGeneration))
    && Says(v, "membership_generation", Decimal(p.membershipGeneration))
    && Says(v, "binding_generation", Decimal(p.provenance.generation))
  }

  /** The value names where the projection comes from. */
  ghost predicate SaysProvenance(v: Value, p: Projection) {
    && SaysInside(v, "provenance", "source", "nodescale")
    && SaysInside(v, "provenance", "network_id", UuidText(p.networkId))
    && SaysInside(v, "provenance", "device_id", UuidText(p.deviceId))
    && SaysInside(v, "provenance", "snapshot", Decimal(p.projectionGeneration))
    && SaysInside(v, "provenance", "binding_id", UuidText(p.provenance.bindingId))
    && SaysInside(v, "provenance", "authenticated_peer_id", p.provenance.peerId)
  }

  /** The hashed text names every field of the projection under its own key. */
  lemma PreimageSays(p: Projection)
    requires Check(p) == None
    ensures var back := Read(Document.Preimage(DesiredBody.DocumentOf(p)));
            && back.Some?
            && Says(back.value, "source", "nodescale")
            && Says(back.value, "network_id", UuidText(p.networkId))
            && Says(back.value, "device_id", UuidText(p.deviceId))
            && Says(back.value, "operation", OperationText(p.enrollment))
            && SaysGenerations(back.value, p) && SaysProvenance(back.value, p)
  {
    hide Check, Written, Read, Says, SaysProvenance, UuidText, Decimal, Document.Wires;
    var m := Document.Material(DesiredBody.DocumentOf(p));
    WrittenMember(m, 0, "source", "nodescale");
    WrittenMember(m, 1, "network_id", UuidText(p.networkId));
    WrittenMember(m, 2, "device_id", UuidText(p.deviceId));
    WrittenMember(m, 3, "projection_generation", Decimal(p.projectionGeneration));
    WrittenMember(m, 4, "membership_generation", Decimal(p.membershipGeneration));
    WrittenMember(m, 5, "binding_generation", Decimal(p.provenance.generation));
    WrittenMember(m, 6, "operation", OperationText(p.enrollment));
    ProvenanceSays(m, 8, p);
  }

  /** The body expected back names the state, the generations, the content hash and the
   *  provenance, each under its own key. */
  lemma BodySays(p: Projection)
    requires Check(p) == None
    ensures var d := DesiredBody.DocumentOf(p);
            var back := Read(GeneratedBody.BodyText(GeneratedBody.Expected(d, p.enrollment)));
            && back.Some?
            && Says(back.value, "state", StateText(p.enrollment))
            && Says(back.value, "content_hash", Document.Sha256Hex(Document.Preimage(d)))
            && SaysGenerations(back.value, p) && SaysProvenance(back.value, p)
  {
    hide Check, Stored, Read, Says, SaysProvenance, UuidText, Decimal, Document.Wires, Document.Preimage;
    var d := DesiredBody.DocumentOf(p);
    HashOf(p);
    var m := GeneratedBody.BodyMembers(GeneratedBody.Expected(d, p.enrollment));
    StoredMember(m, 0, "state", StateText(p.enrollment));
    StoredMember(m, 1, "projection_generation", Decimal(p.projectionGeneration));
    StoredMember(m, 2, "membership_generation", Decimal(p.membershipGeneration));
    StoredMember(m, 3, "binding_generation", Decimal(p.provenance.generation));
    StoredMember(m, 4, "content_hash", d.contentHash);
    ProvenanceSays(m, 6, p);
  }

  /** The content hash is the hash of the text it does not itself appear in. */
  lemma HashOf(p: Projection)
    requires Check(p) == None
    ensures var d := DesiredBody.DocumentOf(p); d.contentHash == Document.Sha256Hex(Document.Preimage(d))
  {
    hide Check, Written;
  }

  /** The provenance that both texts carry. */
  lemma ProvenanceSays(m: seq<Member>, i: nat, p: Projection)
    requires i < |m| && m[i] == ("provenance", Obj(Document.ProvenanceMembers(DesiredBody.ProvenanceOf(p))))
    ensures Read(Written(Obj(m))).Some? && SaysProvenance(Read(Written(Obj(m))).value, p)
    ensures Read(Stored(Obj(m))).Some? && SaysProvenance(Read(Stored(Obj(m))).value, p)
  {
    hide Written, Stored, Read, SaysInside, UuidText, Decimal;
    var inner := Document.ProvenanceMembers(DesiredBody.ProvenanceOf(p));
    var texts := ["nodescale", UuidText(p.networkId), UuidText(p.deviceId), Decimal(p.projectionGeneration),
                  UuidText(p.provenance.bindingId), p.provenance.peerId];
    var keys := ["source", "network_id", "device_id", "snapshot", "binding_id", "authenticated_peer_id"];
    forall j | 0 <= j < 6
      ensures Read(Written(Obj(m))).Some? && SaysInside(Read(Written(Obj(m))).value, "provenance", keys[j], texts[j])
      ensures Read(Stored(Obj(m))).Some? && SaysInside(Read(Stored(Obj(m))).value, "provenance", keys[j], texts[j])
    {
      assert inner[j] == (keys[j], Str(texts[j]));
      WrittenInside(m, i, "provenance", inner, j, keys[j], texts[j]);
      StoredInside(m, i, "provenance", inner, j, keys[j], texts[j]);
    }
    assert keys[0] == "source" && keys[1] == "network_id" && keys[2] == "device_id" && keys[3] == "snapshot"
           && keys[4] == "binding_id" && keys[5] == "authenticated_peer_id";
  }

  // ------------------------------------------------------------------- grants

  /** The array under this key has an item with this text. */
  ghost predicate Lists(v: Value, key: string, text: string) {
    exists i: nat :: Reaches(v, [Under(key), Item(i)], Scalar(Str(text)))
  }

  /** How Fleet calls an operation. */
  function GrantText(o: Operation): string {
    if o == FleetHealth then "fleet.health"
    else if o == FleetInventory then "fleet.inventory"
    else if o == FleetMessage then "fleet.message"
    else "fleet.hermes.run"
  }

  lemma {:induction false} WiresAt(grants: seq<Document.Grant>, i: nat)
    requires i < |grants|
    ensures |Document.Wires(grants)| == |grants| && Document.Wires(grants)[i] == Str(Document.GrantWire(grants[i]))
  {
    if i == 0 { Document.WiresLength(grants); } else { WiresAt(grants[1..], i - 1); }
  }

  lemma GrantItem(m: seq<Member>, k: nat, key: string, grants: seq<Document.Grant>, i: nat, text: string)
    requires UniqueKeys(m) && k < |m| && m[k] == (key, Arr(Document.Wires(grants)))
    ensures Reaches(Obj(m), [Under(key), Item(i)], Scalar(Str(text))) <==>
              i < |grants| && Document.GrantWire(grants[i]) == text
  {
    hide Document.Wires, Document.GrantWire;
    Document.WiresLength(grants);
    if i < |grants| { WiresAt(grants, i); }
    ItemUnder(m, k, key, Document.Wires(grants), i, Scalar(Str(text)));
  }

  /** The array under a key lists exactly the given grants. */
  lemma MemberLists(m: seq<Member>, k: nat, key: string, grants: seq<Document.Grant>, text: string)
    requires UniqueKeys(m) && k < |m| && m[k] == (key, Arr(Document.Wires(grants)))
    ensures Lists(Obj(m), key, text) <==> exists g :: g in grants && Document.GrantWire(g) == text
  {
    hide Document.Wires, Reaches, UniqueKeys;
    forall i: nat
      ensures Reaches(Obj(m), [Under(key), Item(i)], Scalar(Str(text))) <==>
                i < |grants| && Document.GrantWire(grants[i]) == text
    {
      GrantItem(m, k, key, grants, i, text);
    }
    if g :| g in grants && Document.GrantWire(g) == text {
      var i :| 0 <= i < |grants| && grants[i] == g;
      assert Reaches(Obj(m), [Under(key), Item(i)], Scalar(Str(text)));
    }
  }

  lemma OnePlace(m: seq<Member>, j: nat, k: nat)
    requires UniqueKeys(m) && j < |m| && k < |m| && m[j].0 == m[k].0
    ensures j == k
  {
  }

  lemma ItemUnder(m: seq<Member>, k: nat, key: string, items: seq<Value>, i: nat, shape: Shape)
    requires UniqueKeys(m) && k < |m| && m[k] == (key, Arr(items))
    ensures Reaches(Obj(m), [Under(key), Item(i)], shape) <==> i < |items| && ShapeOf(items[i]) == shape
  {
    var path := [Under(key), Item(i)];
    assert path[1..] == [Item(i)] && [Item(i)][1..] == [];
    var v := Obj(m);
    forall j | 0 <= j < |m| && m[j].0 == key ensures j == k { OnePlace(m, j, k); }
    assert Reaches(Arr(items), [Item(i)], shape) <==> i < |items| && ShapeOf(items[i]) == shape;
    assert v.members[k].0 == key && v.members[k].1 == Arr(items);
  }

  lemma WrittenLists(v: Value, key: string, text: string)
    ensures Read(Written(v)).Some? && (Lists(Read(Written(v)).value, key, text) <==> Lists(v, key, text))
  {
    hide Reaches, InOrder, Read, Written;
    WrittenInOrder(v, [], ShapeOf(v));
    forall i: nat
      ensures Reaches(Read(Written(v)).value, [Under(key), Item(i)], Scalar(Str(text))) <==>
                Reaches(v, [Under(key), Item(i)], Scalar(Str(text)))
    {
      WrittenInOrder(v, [Under(key), Item(i)], Scalar(Str(text)));
    }
  }

  lemma StoredLists(v: Value, key: string, text: string)
    ensures Read(Stored(v)).Some? && (Lists(Read(Stored(v)).value, key, text) <==> Lists(v, key, text))
  {
    hide Reaches, InOrder, Read, Stored;
    StoredInOrder(v, [], ShapeOf(v));
    forall i: nat
      ensures Reaches(Read(Stored(v)).value, [Under(key), Item(i)], Scalar(Str(text))) <==>
                Reaches(v, [Under(key), Item(i)], Scalar(Str(text)))
    {
      StoredInOrder(v, [Under(key), Item(i)], Scalar(Str(text)));
    }
  }

  /** The document has a grant exactly when the projection has its operation. */
  lemma DocumentHas(p: Projection, g: Document.Grant)
    requires Check(p) == None
    ensures var grants := DesiredBody.DocumentOf(p).grants;
            && (g in grants <==> DesiredBody.OperationFor(g) in p.grants)
            && (g in Sorting.Sort(grants, Document.ByWire) <==> DesiredBody.OperationFor(g) in p.grants)
  {
    hide Check, UuidText, Decimal, DesiredBody.GrantsOf, Document.Preimage, Sorting.Sort, DesiredBody.OperationFor, OPERATIONS;
    DesiredBody.NoExecution(p);
    var all := DesiredBody.GrantsOf(OPERATIONS, p.grants);
    var grants := DesiredBody.DocumentOf(p).grants;
    DesiredBody.GrantsListed(OPERATIONS, p.grants, g);
    DesiredProjectionProofs.AllOperations(DesiredBody.OperationFor(g));
    Sorting.SameElements(Sorting.Sort(all, Document.ByWire), all, g);
    Sorting.SameElements(Sorting.Sort(grants, Document.ByWire), grants, g);
  }

  /** The document's grants carry the texts of the projection's. */
  lemma GrantTexts(p: Projection, o: Operation)
    requires Check(p) == None
    ensures var grants := DesiredBody.DocumentOf(p).grants;
            && ((exists g :: g in grants && Document.GrantWire(g) == GrantText(o)) <==> o in p.grants)
            && ((exists g :: g in Sorting.Sort(grants, Document.ByWire) && Document.GrantWire(g) == GrantText(o)) <==>
                o in p.grants)
  {
    hide Check, DesiredBody.DocumentOf, GrantText, Document.GrantWire, Sorting.Sort, Sorting.Dedup;
    TextApart(o);
    var grants := DesiredBody.DocumentOf(p).grants;
    forall g: Document.Grant
      ensures g in grants <==> DesiredBody.OperationFor(g) in p.grants
      ensures g in Sorting.Sort(grants, Document.ByWire) <==> DesiredBody.OperationFor(g) in p.grants
    {
      DocumentHas(p, g);
    }
    DesiredBody.NoExecution(p);
    if o in p.grants { assert DesiredBody.OperationFor(DesiredBody.GrantOf(o)) == o; }
  }

  lemma TextApart(o: Operation)
    ensures forall g :: Document.GrantWire(g) == GrantText(o) <==> DesiredBody.OperationFor(g) == o
  {
    assert |"fleet.health"| == 12 && |"fleet.inventory"| == 15 && |"fleet.message"| == 13 && |"fleet.hermes.run"| == 16;
  }

  /** Both texts list the operations the projection grants, and no other. */
  lemma GrantsListed(p: Projection, o: Operation)
    requires Check(p) == None
    ensures var d := DesiredBody.DocumentOf(p);
            var hashed, body := Read(Document.Preimage(d)), Read(GeneratedBody.BodyText(GeneratedBody.Expected(d, p.enrollment)));
            && hashed.Some? && (Lists(hashed.value, "generated_operations", GrantText(o)) <==> o in p.grants)
            && body.Some? && (Lists(body.value, "allowed_operations", GrantText(o)) <==> o in p.grants)
  {
    hide Check, Written, Stored, Read, Lists, GrantText, Document.GrantWire, Document.Wires, Sorting.Sort, UniqueKeys,
         DesiredBody.DocumentOf;
    var d := DesiredBody.DocumentOf(p);
    GrantTexts(p, o);
    Document.MaterialKeys(d);
    MemberLists(Document.Material(d), 7, "generated_operations", Sorting.Sort(d.grants, Document.ByWire), GrantText(o));
    WrittenLists(Obj(Document.Material(d)), "generated_operations", GrantText(o));
    var g := GeneratedBody.Expected(d, p.enrollment);
    GeneratedBody.BodyKeys(g);
    MemberLists(GeneratedBody.BodyMembers(g), 5, "allowed_operations", d.grants, GrantText(o));
    StoredLists(Obj(GeneratedBody.BodyMembers(g)), "allowed_operations", GrantText(o));
  }

  /** The document's grants are in ascending order, each once, and sorting them again
   *  leaves them as they are. */
  lemma GrantsSorted(p: Projection)
    requires Check(p) == None
    ensures var grants := DesiredBody.DocumentOf(p).grants;
            && Sorting.Sorted(grants, Document.ByWire) && Sorting.Distinct(grants)
            && Sorting.Sort(grants, Document.ByWire) == grants
  {
    hide Check, UuidText, Decimal, DesiredBody.GrantsOf, Document.Preimage, Sorting.Sort, Sorting.Dedup,
         Sorting.Sorted, Sorting.Distinct;
    DesiredBody.NoExecution(p);
    var all := DesiredBody.GrantsOf(OPERATIONS, p.grants);
    var grants := DesiredBody.DocumentOf(p).grants;
    Document.WireOrder();
    Sorting.SortSorts(all, Document.ByWire);
    Sorting.DedupSorted(Sorting.Sort(all, Document.ByWire), Document.ByWire);
    Sorting.SortSorts(grants, Document.ByWire);
    Sorting.SortedUnique(Sorting.Sort(grants, Document.ByWire), grants, Document.ByWire);
  }

  lemma TwoGrants(p: Projection, i: nat, j: nat)
    requires Check(p) == None && i < j < |DesiredBody.DocumentOf(p).grants|
    ensures var grants := DesiredBody.DocumentOf(p).grants;
            var x, y := Document.GrantWire(grants[i]), Document.GrantWire(grants[j]);
            Precedes(x, y) && x != y
  {
    hide Check, DesiredBody.DocumentOf, Document.GrantWire, Sorting.Sort, Precedes;
    GrantsSorted(p);
    var grants := DesiredBody.DocumentOf(p).grants;
    assert Document.ByWire(grants[i], grants[j]);
    LeqPrecedes(Document.GrantWire(grants[i]), Document.GrantWire(grants[j]));
    Document.GrantWireInjective(grants[i], grants[j]);
  }

  /** The hashed and the stored list hold this text at this place. */
  ghost predicate Held(p: Projection, i: nat, text: string)
    requires Check(p) == None
  {
    var d := DesiredBody.DocumentOf(p);
    var hashed, body := Read(Document.Preimage(d)), Read(GeneratedBody.BodyText(GeneratedBody.Expected(d, p.enrollment)));
    || (hashed.Some? && Reaches(hashed.value, [Under("generated_operations"), Item(i)], Scalar(Str(text))))
    || (body.Some? && Reaches(body.value, [Under("allowed_operations"), Item(i)], Scalar(Str(text))))
  }

  lemma HeldGrant(p: Projection, i: nat, text: string)
    requires Check(p) == None && Held(p, i, text)
    ensures var grants := DesiredBody.DocumentOf(p).grants;
            i < |grants| && Document.GrantWire(grants[i]) == text
  {
    hide Check, Written, Stored, Read, Reaches, InOrder, Document.GrantWire, Document.Wires, Sorting.Sort, UniqueKeys,
         DesiredBody.DocumentOf, Sorting.Sorted, Sorting.Distinct;
    var d := DesiredBody.DocumentOf(p);
    GrantsSorted(p);
    Document.MaterialKeys(d);
    GrantItem(Document.Material(d), 7, "generated_operations", d.grants, i, text);
    WrittenInOrder(Obj(Document.Material(d)), [Under("generated_operations"), Item(i)], Scalar(Str(text)));
    var g := GeneratedBody.Expected(d, p.enrollment);
    GeneratedBody.BodyKeys(g);
    GrantItem(GeneratedBody.BodyMembers(g), 5, "allowed_operations", d.grants, i, text);
    StoredInOrder(Obj(GeneratedBody.BodyMembers(g)), [Under("allowed_operations"), Item(i)], Scalar(Str(text)));
  }

  /** In both texts, of two operations the first is the smaller, and they differ. */
  lemma GrantsAscend(p: Projection, i: nat, j: nat, x: string, y: string)
    requires Check(p) == None && i < j && Held(p, i, x) && Held(p, j, y)
    ensures Precedes(x, y) && x != y
  {
    hide Check, Held, Precedes, DesiredBody.DocumentOf;
    HeldGrant(p, i, x);
    HeldGrant(p, j, y);
    TwoGrants(p, i, j);
  }
}
