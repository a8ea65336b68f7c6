/** What a client reads in the pages of the two local APIs. */
module ApiText {
  import opened Options
  import opened Encoding
  import opened CanonicalOrder
  import opened WireText
  import Json
  import ObservationApi
  import OperatorApi

  lemma {:induction false} EntryAt(members: seq<(string, Tree)>, k: nat)
    requires k < |members|
    ensures |EntriesOf(members)| == |members| && EntriesOf(members)[k] == (members[k].0, ValueOf(members[k].1))
  {
    hide ValueOf;
    if k > 0 { EntryAt(members[1..], k - 1); } else { EntriesLength(members); }
  }

  lemma {:induction false} EntriesLength(members: seq<(string, Tree)>)
    ensures |EntriesOf(members)| == |members|
  {
    hide EntryOf;
    if members != [] { EntriesLength(members[1..]); }
  }

  lemma {:induction false} ValueAt(items: seq<Tree>, k: nat)
    requires k < |items|
    ensures |ValuesOf(items)| == |items| && ValuesOf(items)[k] == ValueOf(items[k])
  {
    hide ValueOf;
    if k > 0 { ValueAt(items[1..], k - 1); } else { ValuesLength(items); }
  }

  lemma {:induction false} ValuesLength(items: seq<Tree>)
    ensures |ValuesOf(items)| == |items|
  {
    hide ValueOf;
    if items != [] { ValuesLength(items[1..]); }
  }

  /** One step into a record, and one into a list. */
  lemma InRecord(members: seq<(string, Tree)>, k: nat, key: string, rest: seq<Way>, shape: Shape)
    requires k < |members| && members[k].0 == key && Reaches(ValueOf(members[k].1), rest, shape)
    ensures Reaches(ValueOf(Record(members)), [Under(key)] + rest, shape)
  {
    EntryAt(members, k);
    var v, path := ValueOf(Record(members)), [Under(key)] + rest;
    assert path[1..] == rest;
    assert v.Obj? && v.members[k].0 == key && Reaches(v.members[k].1, path[1..], shape);
    hide ValueOf;
  }

  lemma InList(items: seq<Tree>, k: nat, rest: seq<Way>, shape: Shape)
    requires k < |items| && Reaches(ValueOf(items[k]), rest, shape)
    ensures Reaches(ValueOf(List(items)), [Item(k)] + rest, shape)
  {
    ValueAt(items, k);
    var v, path := ValueOf(List(items)), [Item(k)] + rest;
    assert path[1..] == rest;
    assert v.Arr? && Reaches(v.items[k], path[1..], shape);
    hide ValueOf;
  }

  /** The page shows this leaf under a key of its own. */
  ghost predicate Shows(v: Json.Value, key: string, leaf: Tree) { Reaches(v, [Under(key)], ShapeOf(ValueOf(leaf))) }

  /** The page shows this leaf under a key of row `i`. */
  ghost predicate RowShows(v: Json.Value, rows: string, i: nat, key: string, leaf: Tree) {
    Reaches(v, [Under(rows), Item(i), Under(key)], ShapeOf(ValueOf(leaf)))
  }

  lemma Field(members: seq<(string, Tree)>, k: nat)
    requires k < |members|
    ensures Shows(ValueOf(Record(members)), members[k].0, members[k].1)
  {
    hide Reaches, ValueOf;
    var v := ValueOf(members[k].1);
    assert Reaches(v, [], ShapeOf(v)) by { Here(v); }
    InRecord(members, k, members[k].0, [], ShapeOf(v));
    assert [Under(members[k].0)] + [] == [Under(members[k].0)];
  }

  lemma Here(v: Json.Value)
    ensures Reaches(v, [], ShapeOf(v))
  {
  }

  /** Field `k` of row `i` of the list at place `a`. */
  lemma RowField(page: seq<(string, Tree)>, a: nat, items: seq<Tree>, i: nat, row: seq<(string, Tree)>, k: nat)
    requires a < |page| && page[a].1 == List(items) && i < |items| && items[i] == Record(row) && k < |row|
    ensures RowShows(ValueOf(Record(page)), page[a].0, i, row[k].0, row[k].1)
  {
    hide Reaches, ValueOf;
    var shape := ShapeOf(ValueOf(row[k].1));
    Field(row, k);
    InList(items, i, [Under(row[k].0)], shape);
    assert [Item(i)] + [Under(row[k].0)] == [Item(i), Under(row[k].0)];
    InRecord(page, a, page[a].0, [Item(i), Under(row[k].0)], shape);
    assert [Under(page[a].0)] + [Item(i), Under(row[k].0)] == [Under(page[a].0), Item(i), Under(row[k].0)];
  }

  /** A page of observations, read back: each row names its node, its times and what was
   *  observed under their own keys, and the page its cursor, if any. */
  lemma ObservationPage(
    networkId: Uuid, s: ObservationApi.Summary, kind: Name, rows: seq<ObservationApi.Observation>, next: Option<string>,
    i: nat)
    requires i < |rows|
    ensures var back := Json.Read(Wire(ObservationApi.Response(networkId, s, kind, rows, next)));
            && back.Some?
            && Shows(back.value, "version", Text("nodescale.observations.v1")) && Shows(back.value, "kind", Text("list"))
            && Shows(back.value, "network_id", Text(UuidText(networkId)))
            && (next.Some? ==> Shows(back.value, "next_cursor", Text(next.value)))
            && ObservationShown(back.value, rows[i], kind, i)
  {
    hide Reaches, ValueOf, Shows, ObservationShown, Wire, Json.Read, UuidText, ObservationApi.RowsTree,
         ObservationApi.SummaryTree, ObservationApi.Row;
    var response := ObservationApi.Response(networkId, s, kind, rows, next);
    var page := response.members;
    WireRoundTrip(response);
    Field(page, 0);
    Field(page, 1);
    Field(page, 2);
    if next.Some? { Field(page, 5); }
    assert page[4] == ("observations", ObservationApi.RowsTree(kind, rows));
    ObservationRow(page, kind, rows, i);
  }

  /** Row `i` shows this observation. */
  ghost predicate ObservationShown(v: Json.Value, o: ObservationApi.Observation, kind: Name, i: nat) {
    && RowShows(v, "observations", i, "network_id", Text(UuidText(o.networkId)))
    && RowShows(v, "observations", i, "provider_kind", Text(kind))
    && RowShows(v, "observations", i, "provider_instance_id", Text(UuidText(o.instanceId)))
    && RowShows(v, "observations", i, "provider_node_id", Text(BoundedText(o.nodeId)))
    && RowShows(v, "observations", i, "hostname", Text(BoundedText(o.hostname)))
    && RowShows(v, "observations", i, "given_name", Text(BoundedText(o.givenName)))
    && (o.registeredAt.Some? ==> RowShows(v, "observations", i, "registered_at", Text(o.registeredAt.value)))
    && (o.lastSeenAt.Some? ==> RowShows(v, "observations", i, "last_seen_at", Text(o.lastSeenAt.value)))
    && (o.expiresAt.Some? ==> RowShows(v, "observations", i, "expires_at", Text(o.expiresAt.value)))
    && (o.online.Some? ==> RowShows(v, "observations", i, "online", Flag(o.online.value)))
    && RowShows(v, "observations", i, "expired", Flag(o.expired))
    && RowShows(v, "observations", i, "classification", Text(o.classification))
    && RowShows(v, "observations", i, "first_observed_at", Text(o.firstObservedAt))
    && RowShows(v, "observations", i, "last_observed_at", Text(o.lastObservedAt))
    && RowShows(v, "observations", i, "snapshot_at", Text(o.snapshotAt))
  }

  lemma ObservationRow(page: seq<(string, Tree)>, kind: Name, rows: seq<ObservationApi.Observation>, i: nat)
    requires |page| > 4 && page[4] == ("observations", ObservationApi.RowsTree(kind, rows)) && i < |rows|
    ensures ObservationShown(ValueOf(Record(page)), rows[i], kind, i)
  {
    hide ValueOf, RowShows, UuidText, BoundedText;
    var o := rows[i];
    var items := page[4].1.items;
    var row := items[i].members;
    assert row[16] == ("last_observed_at", Text(o.lastObservedAt)) && row[17] == ("snapshot_at", Text(o.snapshotAt));
    forall k | 0 <= k < |row| ensures RowShows(ValueOf(Record(page)), "observations", i, row[k].0, row[k].1) {
      RowField(page, 4, items, i, row, k);
    }
    assert row[1].0 == "network_id" && row[2].0 == "provider_kind" && row[3].0 == "provider_instance_id"
           && row[4].0 == "provider_node_id" && row[5].0 == "hostname" && row[6].0 == "given_name"
           && row[9].0 == "registered_at" && row[10].0 == "last_seen_at" && row[11].0 == "expires_at"
           && row[12].0 == "online" && row[13].0 == "expired" && row[14].0 == "classification"
           && row[15].0 == "first_observed_at";
  }

  /** The first 32 addresses and tags of a row are shown, each bounded, and no more. */
  lemma ObservationLists(
    networkId: Uuid, s: ObservationApi.Summary, kind: Name, rows: seq<ObservationApi.Observation>, next: Option<string>,
    i: nat, j: nat)
    requires i < |rows|
    ensures var back := Json.Read(Wire(ObservationApi.Response(networkId, s, kind, rows, next)));
            && back.Some?
            && ListShown(back.value, i, "addresses", rows[i].addresses, j)
            && ListShown(back.value, i, "tags", rows[i].tags, j)
  {
    hide Reaches, ValueOf, ListShown, Wire, Json.Read, UuidText, BoundedText, ObservationApi.RowsTree,
         ObservationApi.SummaryTree, ObservationApi.Row;
    var response := ObservationApi.Response(networkId, s, kind, rows, next);
    WireRoundTrip(response);
    assert response.members[4] == ("observations", ObservationApi.RowsTree(kind, rows));
    ItemsShown(response.members, kind, rows, i, j);
  }

  /** Row `i` lists as many of these texts as there are, up to 32, and this is number `j`. */
  ghost predicate ListShown(v: Json.Value, i: nat, key: string, texts: seq<string>, j: nat) {
    && Reaches(v, [Under("observations"), Item(i), Under(key)], ArrayOf(if |texts| <= 32 then |texts| else 32))
    && (j < |texts| && j < 32 ==>
          Reaches(v, [Under("observations"), Item(i), Under(key), Item(j)], Scalar(Json.Str(BoundedText(texts[j])))))
  }

  lemma ItemsShown(page: seq<(string, Tree)>, kind: Name, rows: seq<ObservationApi.Observation>, i: nat, j: nat)
    requires |page| > 4 && page[4] == ("observations", ObservationApi.RowsTree(kind, rows)) && i < |rows|
    ensures ListShown(ValueOf(Record(page)), i, "addresses", rows[i].addresses, j)
    ensures ListShown(ValueOf(Record(page)), i, "tags", rows[i].tags, j)
  {
    hide Reaches, ValueOf, UuidText, BoundedText, ListShown, ObservationApi.BoundedItems;
    var items := page[4].1.items;
    var row := items[i].members;
    assert row[7].0 == "addresses" && row[8].0 == "tags";
    RowList(page, items, i, row, 7, rows[i].addresses, j);
    RowList(page, items, i, row, 8, rows[i].tags, j);
  }

  lemma RowList(
    page: seq<(string, Tree)>, items: seq<Tree>, i: nat, row: seq<(string, Tree)>, k: nat, texts: seq<string>, j: nat)
    requires |page| > 4 && page[4] == ("observations", List(items)) && i < |items| && items[i] == Record(row)
    requires k < |row| && row[k].1 == List(ObservationApi.BoundedItems(texts))
    ensures ListShown(ValueOf(Record(page)), i, row[k].0, texts, j)
  {
    hide Reaches, ValueOf, BoundedText;
    var kept := ObservationApi.BoundedItems(texts);
    ListShape(kept);
    RowField(page, 4, items, i, row, k);
    if j < |kept| {
      var shape := Scalar(Json.Str(BoundedText(texts[j])));
      LeafShape(kept[j], BoundedText(texts[j]));
      InList(kept, j, [], shape);
      InRecord(row, k, row[k].0, [Item(j)] + [], shape);
      InList(items, i, [Under(row[k].0)] + ([Item(j)] + []), shape);
      InRecord(page, 4, "observations", [Item(i)] + ([Under(row[k].0)] + ([Item(j)] + [])), shape);
      assert [Under("observations")] + ([Item(i)] + ([Under(row[k].0)] + ([Item(j)] + []))) ==
             [Under("observations"), Item(i), Under(row[k].0), Item(j)];
    }
  }

  lemma LeafShape(t: Tree, text: string)
    requires t == Text(text)
    ensures Reaches(ValueOf(t), [], Scalar(Json.Str(text)))
  {
  }

  lemma ListShape(items: seq<Tree>)
    ensures ShapeOf(ValueOf(List(items))) == ArrayOf(|items|)
  {
    ValuesLength(items);
  }

  /** A page of devices, read back: each row names the device, its generations, its trust
   *  and its bindings under their own keys, and the page its cursor, if any. */
  lemma DevicePage(networkId: Uuid, rows: seq<OperatorApi.Device>, next: Option<string>, i: nat)
    requires i < |rows|
    ensures var back := Json.Read(Wire(OperatorApi.Response(networkId, rows, next)));
            && back.Some?
            && Shows(back.value, "version", Text("nodescale.operator.v1")) && Shows(back.value, "kind", Text("devices.list"))
            && Shows(back.value, "network_id", Text(UuidText(networkId)))
            && (next.Some? ==> Shows(back.value, "next_cursor", Text(next.value)))
            && DeviceShown(back.value, rows[i], i) && TrustShown(back.value, rows[i], i)
  {
    hide Reaches, ValueOf, Shows, DeviceShown, TrustShown, Wire, Json.Read, UuidText, OperatorApi.RowsTree, OperatorApi.Row;
    var response := OperatorApi.Response(networkId, rows, next);
    var page := response.members;
    WireRoundTrip(response);
    Field(page, 0);
    Field(page, 1);
    Field(page, 2);
    if next.Some? { Field(page, 4); }
    assert page[3] == ("devices", OperatorApi.RowsTree(rows));
    DeviceRow(page, rows, i);
  }

  /** Row `i` shows this device. */
  ghost predicate DeviceShown(v: Json.Value, d: OperatorApi.Device, i: nat) {
    && RowShows(v, "devices", i, "device_id", Text(UuidText(d.deviceId)))
    && RowShows(v, "devices", i, "network_id", Text(UuidText(d.networkId)))
    && RowShows(v, "devices", i, "display_name", Text(BoundedText(d.displayName)))
    && RowShows(v, "devices", i, "membership_state", Text(d.membershipState))
    && RowShows(v, "devices", i, "credential_generation", Number(d.credentialGeneration))
    && RowShows(v, "devices", i, "keryx_binding_generation", Number(d.keryxGeneration))
    && RowShows(v, "devices", i, "fleet_projection_generation", Number(d.fleetGeneration))
    && RowShows(v, "devices", i, "fleet_projection_status", Text(d.fleetStatus))
    && (d.provider.Some? ==> RowShows(v, "devices", i, "provider_instance_id", Text(UuidText(d.provider.value.instanceId))))
    && (d.provider.Some? ==> RowShows(v, "devices", i, "provider_node_id", Text(d.provider.value.nodeId)))
    && RowShows(v, "devices", i, "created_at", Text(d.createdAt))
    && RowShows(v, "devices", i, "updated_at", Text(d.updatedAt))
    && (d.revokedAt.Some? ==> RowShows(v, "devices", i, "revoked_at", Text(d.revokedAt.value)))
  }

  /** ... and what is known of its trust and its binding. */
  ghost predicate TrustShown(v: Json.Value, d: OperatorApi.Device, i: nat) {
    && (d.trust.None? ==> RowShows(v, "devices", i, "durable_trust_state", Null))
    && (d.trust.Some? ==> RowShows(v, "devices", i, "durable_trust_state", Text(d.trust.value.state)))
    && (d.trust.Some? ==> RowShows(v, "devices", i, "durable_trust_revision", Number(d.trust.value.revision)))
    && (d.trust.Some? && d.trust.value.bindingState.Some? ==>
          && RowShows(v, "devices", i, "provider_binding_state", Text(d.trust.value.bindingState.value))
          && RowShows(v, "devices", i, "provider_binding_revision", Number(d.trust.value.bindingRevision)))
    && (d.trust.None? || d.trust.value.bindingState.None? ==> RowShows(v, "devices", i, "provider_binding_state", Null))
    && RowShows(v, "devices", i, "live_trust_evidence", Text("not_reconciled_by_operator_read"))
    && (d.binding.Some? ==> RowShows(v, "devices", i, "keryx_binding_id", Text(UuidText(d.binding.value.bindingId))))
    && (d.binding.Some? ==> RowShows(v, "devices", i, "keryx_binding_state", Text(d.binding.value.state)))
    && (d.binding.Some? ==> RowShows(v, "devices", i, "keryx_binding_revision", Number(d.binding.value.revision)))
    && (d.binding.None? ==> RowShows(v, "devices", i, "keryx_binding_id", Null))
    && (if d.binding.Some? && d.binding.value.peer.Some?
        then RowShows(v, "devices", i, "verified_keryx_peer_id", Text(d.binding.value.peer.value))
        else RowShows(v, "devices", i, "verified_keryx_peer_id", Null))
    && RowShows(v, "devices", i, "live_keryx_binding_health", Text("not_exposed"))
  }

  /** Every one of these fields is shown in row `i`. */
  ghost predicate AllShown(v: Json.Value, i: nat, fields: seq<(string, Tree)>) {
    forall k :: 0 <= k < |fields| ==> RowShows(v, "devices", i, fields[k].0, fields[k].1)
  }

  lemma Joined(v: Json.Value, i: nat, a: seq<(string, Tree)>, b: seq<(string, Tree)>)
    requires AllShown(v, i, a + b)
    ensures AllShown(v, i, a) && AllShown(v, i, b)
  {
    hide RowShows;
    forall k | 0 <= k < |a| ensures RowShows(v, "devices", i, a[k].0, a[k].1) { assert (a + b)[k] == a[k]; }
    forall k | 0 <= k < |b| ensures RowShows(v, "devices", i, b[k].0, b[k].1) { assert (a + b)[|a| + k] == b[k]; }
  }

  lemma DeviceRow(page: seq<(string, Tree)>, rows: seq<OperatorApi.Device>, i: nat)
    requires |page| > 3 && page[3] == ("devices", OperatorApi.RowsTree(rows)) && i < |rows|
    ensures DeviceShown(ValueOf(Record(page)), rows[i], i) && TrustShown(ValueOf(Record(page)), rows[i], i)
  {
    hide ValueOf, RowShows, UuidText, BoundedText, DeviceShown, TrustShown, OperatorApi.Row;
    var items := page[3].1.items;
    assert items[i] == OperatorApi.Row(rows[i]);
    var row := RowMembers(rows[i]);
    forall k | 0 <= k < |row| ensures RowShows(ValueOf(Record(page)), "devices", i, row[k].0, row[k].1) {
      RowField(page, 3, items, i, row, k);
    }
    FieldsShown(ValueOf(Record(page)), rows[i], i);
  }

  function RowMembers(d: OperatorApi.Device): (members: seq<(string, Tree)>)
    ensures OperatorApi.Row(d) == Record(members)
  {
    OperatorApi.Row(d).members
  }

  lemma FieldsShown(v: Json.Value, d: OperatorApi.Device, i: nat)
    requires AllShown(v, i, RowMembers(d))
    ensures DeviceShown(v, d, i) && TrustShown(v, d, i)
  {
    hide RowShows, AllShown, DeviceShown, TrustShown, OperatorApi.IdentityMembers, OperatorApi.ProviderMembers,
         OperatorApi.TrustMembers, OperatorApi.BindingMembers, OperatorApi.TimeMembers, OperatorApi.RolesTree;
    var identity, provider, trust := OperatorApi.IdentityMembers(d), OperatorApi.ProviderMembers(d), OperatorApi.TrustMembers(d.trust);
    var binding, times := OperatorApi.BindingMembers(d.binding), OperatorApi.TimeMembers(d);
    var roles := [("roles", OperatorApi.RolesTree(d.roles))];
    Joined(v, i, identity, roles + (provider + (trust + (binding + times))));
    Joined(v, i, roles, provider + (trust + (binding + times)));
    Joined(v, i, provider, trust + (binding + times));
    Joined(v, i, trust, binding + times);
    Joined(v, i, binding, times);
    DeviceFields(v, d, i);
    TrustFields(v, d, i);
  }

  lemma DeviceFields(v: Json.Value, d: OperatorApi.Device, i: nat)
    requires AllShown(v, i, OperatorApi.IdentityMembers(d)) && AllShown(v, i, OperatorApi.ProviderMembers(d))
    requires AllShown(v, i, OperatorApi.TimeMembers(d))
    ensures DeviceShown(v, d, i)
  {
    hide ValueOf, RowShows, UuidText, BoundedText;
    var a, b, c := OperatorApi.IdentityMembers(d), OperatorApi.ProviderMembers(d), OperatorApi.TimeMembers(d);
    assert a[0].0 == "device_id" && a[1].0 == "network_id" && a[2].0 == "display_name" && a[3].0 == "membership_state"
           && b[0].0 == "credential_generation" && b[1].0 == "keryx_binding_generation"
           && b[2].0 == "fleet_projection_generation" && b[3].0 == "fleet_projection_status"
           && b[4].0 == "provider_instance_id" && b[5].0 == "provider_node_id"
           && c[0].0 == "created_at" && c[1].0 == "updated_at" && c[2].0 == "revoked_at";
  }

  lemma TrustFields(v: Json.Value, d: OperatorApi.Device, i: nat)
    requires AllShown(v, i, OperatorApi.TrustMembers(d.trust)) && AllShown(v, i, OperatorApi.BindingMembers(d.binding))
    ensures TrustShown(v, d, i)
  {
    hide ValueOf, RowShows, UuidText, BoundedText;
    var a, b := OperatorApi.TrustMembers(d.trust), OperatorApi.BindingMembers(d.binding);
    assert a[0].0 == "durable_trust_state" && a[1].0 == "durable_trust_revision" && a[2].0 == "live_trust_evidence"
           && a[3].0 == "provider_binding_state" && a[4].0 == "provider_binding_revision"
           && b[0].0 == "keryx_binding_id" && b[1].0 == "keryx_binding_state" && b[2].0 == "verified_keryx_peer_id"
           && b[3].0 == "keryx_binding_revision" && b[4].0 == "live_keryx_binding_health";
  }
}
