/** The projection document sent to Fleet and the text its content hash covers. */
module ProjectionDocument {
  import opened Options
  import opened Json
  import opened Sorting
  import opened TextOrder
  import opened CanonicalJson
  import CanonicalJsonWriter

  datatype Grant = Health | Inventory | Message

  function GrantWire(g: Grant): string {
    match g
    case Health => "fleet.health"
    case Inventory => "fleet.inventory"
    case Message => "fleet.message"
  }

  datatype Operation = Upsert | Disable | Remove

  function OperationWire(o: Operation): string {
    match o
    case Upsert => "upsert"
    case Disable => "disable"
    case Remove => "remove"
  }

  /** Both authenticated fields are present together or not at all. */
  datatype Authenticated = Authenticated(bindingId: string, peerId: string)

  datatype Provenance = Provenance(
    networkId: string, deviceId: string, snapshot: string, authenticated: Option<Authenticated>)

  datatype Generations = Generations(projection: string, membership: string, binding: string)

  datatype Document = Document(
    networkId: string,
    deviceId: string,
    generations: Generations,
    contentHash: string,
    operation: Operation,
    grants: seq<Grant>,
    provenance: Provenance)

  /** The hexadecimal SHA-256 of a text, left uninterpreted. */
  const Sha256Hex: string -> string

  const ByWire: (Grant, Grant) -> bool := (a: Grant, b: Grant) => KeyLeq(GrantWire(a), GrantWire(b))

  function ProvenanceMembers(p: Provenance): seq<Member> {
    [("source", Str("nodescale")), ("network_id", Str(p.networkId)), ("device_id", Str(p.deviceId)),
     ("snapshot", Str(p.snapshot))] +
    match p.authenticated
    case None => []
    case Some(a) => [("binding_id", Str(a.bindingId)), ("authenticated_peer_id", Str(a.peerId))]
  }

  function Wires(grants: seq<Grant>): seq<Value> {
    if grants == [] then [] else [Str(GrantWire(grants[0]))] + Wires(grants[1..])
  }

  /** Everything but the content hash itself, with the grants sorted again. */
  function Material(d: Document): seq<Member> {
    [("source", Str("nodescale")),
     ("network_id", Str(d.networkId)),
     ("device_id", Str(d.deviceId)),
     ("projection_generation", Str(d.generations.projection)),
     ("membership_generation", Str(d.generations.membership)),
     ("binding_generation", Str(d.generations.binding)),
     ("operation", Str(OperationWire(d.operation))),
     ("generated_operations", Arr(Wires(Sort(d.grants, ByWire)))),
     ("provenance", Obj(ProvenanceMembers(d.provenance)))]
  }

  /** The text whose hash is the document's content hash. */
  function Preimage(d: Document): string { Written(Obj(Material(d))) }

  function New(
    networkId: string, deviceId: string, generations: Generations, operation: Operation, grants: seq<Grant>,
    provenance: Provenance)
    : Document
  {
    var document := Document(networkId, deviceId, generations, "", operation, Dedup(Sort(grants, ByWire)), provenance);
    document.(contentHash := Sha256Hex(Preimage(document)))
  }

  method CanonicalContentHash(d: Document) returns (hash: string)
    ensures hash == Sha256Hex(Preimage(d))
  {
    var canonical := new CanonicalJsonWriter.Output();
    CanonicalJsonWriter.WriteCanonicalJson(Obj(Material(d)), canonical);
    assert canonical.text == Preimage(d);
    hash := Sha256Hex(canonical.text);
  }

  // ------------------------------------------------------------ grant order

  lemma WireOrder()
    ensures Order(ByWire)
    ensures forall s: seq<Grant> :: Antisymmetric(s, ByWire)
  {
    forall x: Grant, y: Grant ensures ByWire(x, y) || ByWire(y, x) { KeyTotal(GrantWire(x), GrantWire(y)); }
    forall x: Grant, y: Grant, z: Grant | ByWire(x, y) && ByWire(y, z) ensures ByWire(x, z) {
      KeyTransitive(GrantWire(x), GrantWire(y), GrantWire(z));
    }
    forall x: Grant, y: Grant | ByWire(x, y) && ByWire(y, x) ensures x == y {
      KeyTotal(GrantWire(x), GrantWire(y));
      GrantWireInjective(x, y);
    }
  }

  lemma GrantWireInjective(x: Grant, y: Grant)
    ensures GrantWire(x) == GrantWire(y) <==> x == y
  {
    assert "fleet.health"[6] == 'h' && "fleet.inventory"[6] == 'i' && "fleet.message"[6] == 'm';
  }

  /** The built document depends on which grants are given, and on neither their
   *  order nor their repetition. */
  lemma GrantsAsASet(
    networkId: string, deviceId: string, generations: Generations, operation: Operation, a: seq<Grant>, b: seq<Grant>,
    provenance: Provenance)
    ensures New(networkId, deviceId, generations, operation, a, provenance) ==
            New(networkId, deviceId, generations, operation, b, provenance)
            <==> (forall g :: g in a <==> g in b)
  {
    WireOrder();
    SortDedupExactly(a, b, ByWire);
  }

  // -------------------------------------------------------------- injectivity

  lemma MaterialKeys(d: Document)
    ensures UniqueKeys(Material(d)) && |Material(d)| == 9
  {
    var keys := ["source", "network_id", "device_id", "projection_generation", "membership_generation",
                 "binding_generation", "operation", "generated_operations", "provenance"];
    assert forall i :: 0 <= i < 9 ==> Material(d)[i].0 == keys[i];
    KeysApart();
  }

  lemma KeysApart()
    ensures var keys := ["source", "network_id", "device_id", "projection_generation", "membership_generation",
                         "binding_generation", "operation", "generated_operations", "provenance"];
            forall i, j :: 0 <= i < j < 9 ==> keys[i] != keys[j]
  {
    assert |"source"| == 6 && |"network_id"| == 10 && |"device_id"| == 9 && |"projection_generation"| == 21
           && |"membership_generation"| == 21 && |"binding_generation"| == 18 && |"operation"| == 9
           && |"generated_operations"| == 20 && |"provenance"| == 10;
    assert "device_id"[0] != "operation"[0] && "network_id"[0] != "provenance"[0]
           && "projection_generation"[0] != "membership_generation"[0];
  }

  lemma ProvenanceKeys(p: Provenance)
    ensures UniqueKeys(ProvenanceMembers(p))
  {
    var keys := ["source", "network_id", "device_id", "snapshot", "binding_id", "authenticated_peer_id"];
    var members := ProvenanceMembers(p);
    assert forall i :: 0 <= i < |members| ==> members[i].0 == keys[i];
    assert |"source"| == 6 && |"network_id"| == 10 && |"device_id"| == 9 && |"snapshot"| == 8
           && |"binding_id"| == 10 && |"authenticated_peer_id"| == 21;
    assert "network_id"[0] != "binding_id"[0];
  }

  lemma SameText(a: seq<Member>, b: seq<Member>, key: string, x: string, y: string)
    requires UniqueKeys(a) && UniqueKeys(b) && (key, Str(x)) in a && (key, Str(y)) in b
    requires Canonical(Obj(a)) == Canonical(Obj(b))
    ensures x == y
  {
    SameValueUnderKey(a, b, key, Str(x), Str(y));
  }

  lemma ProvenanceInjective(p: Provenance, q: Provenance)
    requires Canonical(Obj(ProvenanceMembers(p))) == Canonical(Obj(ProvenanceMembers(q)))
    ensures p == q
  {
    var a, b := ProvenanceMembers(p), ProvenanceMembers(q);
    ProvenanceKeys(p);
    ProvenanceKeys(q);
    CanonicalLength(a);
    CanonicalLength(b);
    hide Canonical, UniqueKeys;
    assert a[1] == ("network_id", Str(p.networkId)) && b[1] == ("network_id", Str(q.networkId));
    SameText(a, b, "network_id", p.networkId, q.networkId);
    assert a[2] == ("device_id", Str(p.deviceId)) && b[2] == ("device_id", Str(q.deviceId));
    SameText(a, b, "device_id", p.deviceId, q.deviceId);
    assert a[3] == ("snapshot", Str(p.snapshot)) && b[3] == ("snapshot", Str(q.snapshot));
    SameText(a, b, "snapshot", p.snapshot, q.snapshot);
    assert |a| == |b|;
    if p.authenticated.Some? {
      var x, y := p.authenticated.value, q.authenticated.value;
      assert a[4] == ("binding_id", Str(x.bindingId)) && b[4] == ("binding_id", Str(y.bindingId));
      SameText(a, b, "binding_id", x.bindingId, y.bindingId);
      assert a[5] == ("authenticated_peer_id", Str(x.peerId)) && b[5] == ("authenticated_peer_id", Str(y.peerId));
      SameText(a, b, "authenticated_peer_id", x.peerId, y.peerId);
    }
  }

  lemma CanonicalLength(a: seq<Member>)
    ensures |Canonical(Obj(a)).members| == |a|
  {
    SortedMembers(a);
  }

  lemma {:induction false} WiresInjective(a: seq<Grant>, b: seq<Grant>)
    requires CanonicalItems(Wires(a)) == CanonicalItems(Wires(b))
    ensures a == b
  {
    WiresLength(a);
    WiresLength(b);
    if a != [] {
      assert CanonicalItems(Wires(a))[0] == Str(GrantWire(a[0]));
      assert CanonicalItems(Wires(b))[0] == Str(GrantWire(b[0]));
      GrantWireInjective(a[0], b[0]);
      assert CanonicalItems(Wires(a))[1..] == CanonicalItems(Wires(a[1..]));
      assert CanonicalItems(Wires(b))[1..] == CanonicalItems(Wires(b[1..]));
      WiresInjective(a[1..], b[1..]);
    }
  }

  lemma WiresLength(a: seq<Grant>)
    ensures |Wires(a)| == |a|
  {
  }

  /** Two documents agree on every hashed field, their grants in any order. */
  predicate SameHashedFields(a: Document, b: Document) {
    && a.networkId == b.networkId && a.deviceId == b.deviceId && a.generations == b.generations
    && a.operation == b.operation && multiset(a.grants) == multiset(b.grants) && a.provenance == b.provenance
  }

  lemma SortedGrants(a: seq<Grant>, b: seq<Grant>)
    ensures Sort(a, ByWire) == Sort(b, ByWire) <==> multiset(a) == multiset(b)
  {
    if multiset(a) == multiset(b) {
      WireOrder();
      SortSorts(a, ByWire);
      SortSorts(b, ByWire);
      SortedUnique(Sort(a, ByWire), Sort(b, ByWire), ByWire);
    }
  }

  lemma MaterialMembers(d: Document)
    ensures var m := Material(d);
            && ("network_id", Str(d.networkId)) in m && ("device_id", Str(d.deviceId)) in m
            && ("projection_generation", Str(d.generations.projection)) in m
            && ("membership_generation", Str(d.generations.membership)) in m
            && ("binding_generation", Str(d.generations.binding)) in m
            && ("operation", Str(OperationWire(d.operation))) in m
            && ("generated_operations", Arr(Wires(Sort(d.grants, ByWire)))) in m
            && ("provenance", Obj(ProvenanceMembers(d.provenance))) in m
  {
    var m := Material(d);
    assert m[1] in m && m[2] in m && m[3] in m && m[4] in m && m[5] in m && m[6] in m && m[7] in m && m[8] in m;
  }

  /** Two documents have the same hash preimage exactly when they agree on every
   *  hashed field. */
  lemma PreimageExactly(a: Document, b: Document)
    ensures Preimage(a) == Preimage(b) <==> SameHashedFields(a, b)
  {
    SortedGrants(a.grants, b.grants);
    if Preimage(a) == Preimage(b) {
      SameTextExactly(Obj(Material(a)), Obj(Material(b)));
      PreimageInjective(a, b);
    }
  }

  lemma PreimageInjective(a: Document, b: Document)
    requires Canonical(Obj(Material(a))) == Canonical(Obj(Material(b)))
    ensures SameHashedFields(a, b)
  {
    var m, n := Material(a), Material(b);
    MaterialKeys(a);
    MaterialKeys(b);
    MaterialMembers(a);
    MaterialMembers(b);
    hide Canonical, UniqueKeys, Material, ProvenanceMembers, Sort, Wires;
    SameText(m, n, "network_id", a.networkId, b.networkId);
    SameText(m, n, "device_id", a.deviceId, b.deviceId);
    SameText(m, n, "projection_generation", a.generations.projection, b.generations.projection);
    SameText(m, n, "membership_generation", a.generations.membership, b.generations.membership);
    SameText(m, n, "binding_generation", a.generations.binding, b.generations.binding);
    SameText(m, n, "operation", OperationWire(a.operation), OperationWire(b.operation));
    OperationWireInjective(a.operation, b.operation);
    SameValueUnderKey(m, n, "provenance", Obj(ProvenanceMembers(a.provenance)), Obj(ProvenanceMembers(b.provenance)));
    ProvenanceInjective(a.provenance, b.provenance);
    var s, t := Sort(a.grants, ByWire), Sort(b.grants, ByWire);
    SameValueUnderKey(m, n, "generated_operations", Arr(Wires(s)), Arr(Wires(t)));
    SameItems(Wires(s), Wires(t));
    WiresInjective(s, t);
    SortedGrants(a.grants, b.grants);
  }

  lemma SameItems(a: seq<Value>, b: seq<Value>)
    requires Canonical(Arr(a)) == Canonical(Arr(b))
    ensures CanonicalItems(a) == CanonicalItems(b)
  {
  }

  lemma OperationWireInjective(a: Operation, b: Operation)
    ensures OperationWire(a) == OperationWire(b) <==> a == b
  {
    assert "upsert"[0] == 'u' && "disable"[0] == 'd' && "remove"[0] == 'r';
  }
}
