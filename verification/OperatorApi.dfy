/** Device pages of the local operator API, and the runtime's sweep over devices. */
module OperatorApi {
  import opened Options
  import opened Encoding
  import opened WireText
  import opened Paging

  const PAGE_MAX := 32
  const VERSION: Name := "nodescale.operator.v1"
  const KIND: Name := "devices.list"

  /** A bounded identifier as it is stored. */
  type Identifier = s: string | IdentifierOk(s) witness "a"

  datatype Trust = Trust(state: Name, revision: Counter, bindingState: Option<Name>, bindingRevision: Counter)

  datatype PeerBinding = PeerBinding(bindingId: Uuid, state: Name, peer: Option<Identifier>, revision: Counter)

  datatype ProviderIdentity = ProviderIdentity(instanceId: Uuid, nodeId: Identifier)

  datatype Device = Device(
    deviceId: Uuid,
    networkId: Uuid,
    displayName: string,
    membershipState: Name,
    roles: seq<Name>,
    credentialGeneration: Counter,
    keryxGeneration: Counter,
    fleetGeneration: Counter,
    fleetStatus: Name,
    provider: Option<ProviderIdentity>,
    trust: Option<Trust>,
    binding: Option<PeerBinding>,
    createdAt: Name,
    updatedAt: Name,
    revokedAt: Option<Name>)

  function IdentityMembers(d: Device): seq<(string, Tree)> {
    [("device_id", Text(UuidText(d.deviceId))),
     ("network_id", Text(UuidText(d.networkId))),
     ("display_name", Text(BoundedText(d.displayName))),
     ("membership_state", Text(d.membershipState))]
  }

  function RolesTree(roles: seq<Name>): Tree {
    List(seq(|roles|, i requires 0 <= i < |roles| => Text(roles[i])))
  }

  function ProviderMembers(d: Device): seq<(string, Tree)> {
    [("credential_generation", Number(d.credentialGeneration)),
     ("keryx_binding_generation", Number(d.keryxGeneration)),
     ("fleet_projection_generation", Number(d.fleetGeneration)),
     ("fleet_projection_status", Text(d.fleetStatus)),
     ("provider_instance_id", if d.provider.None? then Null else Text(UuidText(d.provider.value.instanceId))),
     ("provider_node_id", if d.provider.None? then Null else Text(d.provider.value.nodeId))]
  }

  /** `trust_fields`. */
  function TrustMembers(t: Option<Trust>): seq<(string, Tree)> {
    var bound := t.Some? && t.value.bindingState.Some?;
    [("durable_trust_state", if t.None? then Null else Text(t.value.state)),
     ("durable_trust_revision", if t.None? then Null else Number(t.value.revision)),
     ("live_trust_evidence", Text("not_reconciled_by_operator_read")),
     ("provider_binding_state", if bound then Text(t.value.bindingState.value) else Null),
     ("provider_binding_revision", if bound then Number(t.value.bindingRevision) else Null)]
  }

  /** `binding_fields`. */
  function BindingMembers(b: Option<PeerBinding>): seq<(string, Tree)> {
    [("keryx_binding_id", if b.None? then Null else Text(UuidText(b.value.bindingId))),
     ("keryx_binding_state", if b.None? then Null else Text(b.value.state)),
     ("verified_keryx_peer_id", if b.Some? && b.value.peer.Some? then Text(b.value.peer.value) else Null),
     ("keryx_binding_revision", if b.None? then Null else Number(b.value.revision)),
     ("live_keryx_binding_health", Text("not_exposed"))]
  }

  function TimeMembers(d: Device): seq<(string, Tree)> {
    [("created_at", Text(d.createdAt)), ("updated_at", Text(d.updatedAt)), ("revoked_at", Optional(d.revokedAt))]
  }

  function Row(d: Device): Tree {
    Record(IdentityMembers(d)
           + ([("roles", RolesTree(d.roles))]
              + (ProviderMembers(d) + (TrustMembers(d.trust) + (BindingMembers(d.binding) + TimeMembers(d))))))
  }

  function RowsTree(rows: seq<Device>): Tree {
    List(seq(|rows|, i requires 0 <= i < |rows| => Row(rows[i])))
  }

  function ListMembers(rows: seq<Device>): seq<(string, Tree)> { [("devices", RowsTree(rows))] }

  function Response(networkId: Uuid, rows: seq<Device>, next: Option<string>): Tree {
    Record(HeaderMembers(VERSION, KIND, networkId) + (ListMembers(rows) + CursorMembers(next)))
  }

  /** The canonical text of a device ID. */
  predicate DeviceIdText(s: string) {
    && |s| == 36
    && (forall i :: 0 <= i < 36 ==>
          if i in {8, 13, 18, 23} then s[i] == '-' else HexChar(s[i]))
    && (exists i :: 0 <= i < 36 && s[i] != '-' && s[i] != '0')
  }

  function Devices(networkId: Uuid): Api<Device> {
    Api((d: Device) => UuidText(d.deviceId),
        (d: Device) => UuidText(d.deviceId),
        (cursor: string) => cursor != "" && |Utf8(cursor)| <= MAX_TEXT_BYTES && DeviceIdText(cursor),
        (rows: seq<Device>, next: Option<string>) => WireBytes(Response(networkId, rows, next)) <= MAX_RESPONSE_BYTES,
        PAGE_MAX)
  }

  // --------------------------------------------------------------- device IDs

  lemma HexCharacters(digits: seq<nat>)
    requires forall i :: 0 <= i < |digits| ==> digits[i] < 16
    ensures var s := HexText(digits);
            |s| == |digits|
            && forall i :: 0 <= i < |s| ==> HexChar(s[i]) && (s[i] == '0' <==> digits[i] == 0)
  {
  }

  predicate HexChar(c: char) { '0' <= c <= '9' || 'a' <= c <= 'f' }

  /** Where a digit stands in the text. */
  function DigitPlace(i: nat): nat {
    if i < 8 then i else if i < 12 then i + 1 else if i < 16 then i + 2 else if i < 20 then i + 3 else i + 4
  }

  lemma TextAt(u: Uuid, i: nat)
    requires i < 32
    ensures HexChar(UuidText(u)[DigitPlace(i)]) && (UuidText(u)[DigitPlace(i)] == '0' <==> u[i] == 0)
  {
    HexCharacters(u[..8]);
    HexCharacters(u[8..12]);
    HexCharacters(u[12..16]);
    HexCharacters(u[16..20]);
    HexCharacters(u[20..]);
    hide HexText;
    if i < 8 { assert UuidText(u)[i] == HexText(u[..8])[i]; }
    else if i < 12 { assert UuidText(u)[i + 1] == HexText(u[8..12])[i - 8]; }
    else if i < 16 { assert UuidText(u)[i + 2] == HexText(u[12..16])[i - 12]; }
    else if i < 20 { assert UuidText(u)[i + 3] == HexText(u[16..20])[i - 16]; }
    else { assert UuidText(u)[i + 4] == HexText(u[20..])[i - 20]; }
  }

  lemma Hyphens(u: Uuid)
    ensures var s := UuidText(u); s[8] == '-' && s[13] == '-' && s[18] == '-' && s[23] == '-'
  {
    hide HexText;
  }

  lemma OwnDeviceId(u: Uuid)
    requires !Nil(u)
    ensures DeviceIdText(UuidText(u)) && |Utf8(UuidText(u))| == 36
  {
    var s := UuidText(u);
    Hyphens(u);
    var k :| 0 <= k < 32 && u[k] != 0;
    TextAt(u, k);
    hide UuidText;
    forall i | 0 <= i < 36
      ensures if i in {8, 13, 18, 23} then s[i] == '-' else HexChar(s[i])
    {
      if i < 8 { TextAt(u, i); }
      else if 8 < i < 13 { TextAt(u, i - 1); }
      else if 13 < i < 18 { TextAt(u, i - 2); }
      else if 18 < i < 23 { TextAt(u, i - 3); }
      else if 23 < i { TextAt(u, i - 4); }
    }
    AsciiLength(s);
  }

  // ---------------------------------------------------------------- row size

  lemma IdentifierSize(s: Identifier)
    ensures TextSize(s) <= 512
  {
    BoundedIdentifier(s);
    BoundedTextSize(s);
  }

  lemma IdentityFits(d: Device)
    ensures MembersSize(IdentityMembers(d)) <= 4 * (SHORT + 1)
  {
    hide TextSize, BoundedText, UuidText;
    NameShort(UuidText(d.deviceId));
    NameShort(UuidText(d.networkId));
    BoundedTextSize(d.displayName);
    NameShort(d.membershipState);
    ShortMembers(IdentityMembers(d));
  }

  lemma ProviderFits(d: Device)
    ensures MembersSize(ProviderMembers(d)) <= 6 * (SHORT + 1)
  {
    hide TextSize, UuidText;
    NameShort(d.fleetStatus);
    if d.provider.Some? {
      NameShort(UuidText(d.provider.value.instanceId));
      IdentifierSize(d.provider.value.nodeId);
    }
    ShortMembers(ProviderMembers(d));
  }

  lemma TrustFits(t: Option<Trust>)
    ensures MembersSize(TrustMembers(t)) <= 5 * (SHORT + 1)
  {
    hide TextSize;
    NameShort("not_reconciled_by_operator_read");
    if t.Some? {
      NameShort(t.value.state);
      if t.value.bindingState.Some? { NameShort(t.value.bindingState.value); }
    }
    ShortMembers(TrustMembers(t));
  }

  lemma BindingFits(b: Option<PeerBinding>)
    ensures MembersSize(BindingMembers(b)) <= 5 * (SHORT + 1)
  {
    hide TextSize, UuidText;
    NameShort("not_exposed");
    if b.Some? {
      NameShort(UuidText(b.value.bindingId));
      NameShort(b.value.state);
      if b.value.peer.Some? { IdentifierSize(b.value.peer.value); }
    }
    ShortMembers(BindingMembers(b));
  }

  lemma TimesFit(d: Device)
    ensures MembersSize(TimeMembers(d)) <= 3 * (SHORT + 1)
  {
    hide TextSize;
    NameShort(d.createdAt);
    NameShort(d.updatedAt);
    OptionalShort(d.revokedAt);
    ShortMembers(TimeMembers(d));
  }

  /** There are six roles, and a device holds each at most once. */
  lemma RolesFit(roles: seq<Name>)
    requires |roles| <= 6
    ensures MembersSize([("roles", RolesTree(roles))]) <= 4000
  {
    var items := RolesTree(roles).items;
    forall i | 0 <= i < |items| ensures Size(items[i]) <= 514 { NameShort(roles[i]); }
    ItemsAtMost(items, 514);
    SingleMember("roles", RolesTree(roles));
    hide MembersSize;
  }

  /** The members of any one row. */
  lemma RowFits(d: Device)
    requires |d.roles| <= 6
    ensures Size(Row(d)) <= 21_000
  {
    IdentityFits(d);
    ProviderFits(d);
    TrustFits(d.trust);
    BindingFits(d.binding);
    TimesFit(d);
    RolesFit(d.roles);
    var p, t, b, e := ProviderMembers(d), TrustMembers(d.trust), BindingMembers(d.binding), TimeMembers(d);
    var r := [("roles", RolesTree(d.roles))];
    RowSize(d);
    hide *;
    MembersConcat(b, e);
    MembersConcat(t, b + e);
    MembersConcat(p, t + (b + e));
    MembersConcat(r, p + (t + (b + e)));
    MembersConcat(IdentityMembers(d), r + (p + (t + (b + e))));
    assert 23 * (SHORT + 1) + 4000 + 7 <= 21_000;
  }

  lemma RowSize(d: Device)
    ensures Size(Row(d)) ==
            2 + MembersSize(IdentityMembers(d)
                            + ([("roles", RolesTree(d.roles))]
                               + (ProviderMembers(d) + (TrustMembers(d.trust) + (BindingMembers(d.binding) + TimeMembers(d))))))
  {
    hide MembersSize, IdentityMembers, ProviderMembers, TrustMembers, BindingMembers, TimeMembers, RolesTree;
  }

  lemma RowsSize(rows: seq<Device>)
    requires |rows| <= 1 && forall d :: d in rows ==> |d.roles| <= 6
    ensures Size(RowsTree(rows)) <= 21_003
  {
    if rows != [] { RowFits(rows[0]); }
    hide Row;
    ItemsAtMost(RowsTree(rows).items, 21_000);
  }

  lemma RowsFit(rows: seq<Device>)
    requires |rows| <= 1 && forall d :: d in rows ==> |d.roles| <= 6
    ensures MembersSize(ListMembers(rows)) <= 22_000
  {
    RowsSize(rows);
    hide MembersSize, RowsTree, Size;
    SingleMember("devices", RowsTree(rows));
  }

  lemma ResponseSize(networkId: Uuid, rows: seq<Device>, next: Option<string>)
    ensures Size(Response(networkId, rows, next)) ==
            2 + MembersSize(HeaderMembers(VERSION, KIND, networkId) + (ListMembers(rows) + CursorMembers(next)))
  {
    hide MembersSize, HeaderMembers, CursorMembers, RowsTree;
  }

  lemma OneRowFits(networkId: Uuid, rows: seq<Device>, next: Option<string>)
    requires |rows| <= 1 && (forall d :: d in rows ==> |d.roles| <= 6)
    requires next.Some? ==> |next.value| <= 36
    ensures WireBytes(Response(networkId, rows, next)) <= MAX_RESPONSE_BYTES
  {
    SizeExactly(Response(networkId, rows, next));
    hide WireBytes;
    HeaderFits(VERSION, KIND, networkId);
    if next.Some? { NameShort(next.value); }
    CursorFits(next);
    RowsFit(rows);
    ResponseSize(networkId, rows, next);
    hide *;
    MembersConcat(ListMembers(rows), CursorMembers(next));
    MembersConcat(HeaderMembers(VERSION, KIND, networkId), ListMembers(rows) + CursorMembers(next));
    assert 2 + 4 * (SHORT + 1) + 2 + 22_000 <= MAX_RESPONSE_BYTES;
  }

  // ------------------------------------------------------------ completeness

  /** Device rows as the state store holds them. */
  ghost predicate Stored(rows: seq<Device>) {
    && Ordered(rows, (d: Device) => UuidText(d.deviceId))
    && (forall i :: 0 <= i < |rows| ==> !Nil(rows[i].deviceId) && |rows[i].roles| <= 6)
  }

  lemma DevicesServable(networkId: Uuid, rows: seq<Device>)
    requires Stored(rows)
    ensures Servable(Devices(networkId), rows)
  {
    var api := Devices(networkId);
    assert Ordered(rows, api.key);
    OneRowFits(networkId, [], None);
    forall i | 0 <= i < |rows|
      ensures api.cursor(rows[i]) == api.key(rows[i]) && api.accepts(api.key(rows[i]))
      ensures api.fits([rows[i]], None) && api.fits([rows[i]], Some(api.key(rows[i])))
    {
      OwnDeviceId(rows[i].deviceId);
      OneRowFits(networkId, [rows[i]], None);
      OneRowFits(networkId, [rows[i]], Some(UuidText(rows[i].deviceId)));
      hide Response, Size, DeviceIdText, UuidText, Utf8;
    }
  }

  /** Over fixed devices a client following `next_cursor` sees each exactly once and
   *  in order. */
  lemma DevicePagesComplete(networkId: Uuid, rows: seq<Device>, limit: nat)
    requires Stored(rows) && 1 <= limit <= PAGE_MAX
    ensures var api := Devices(networkId);
            Servable(api, rows) && After(rows, api.key, None) == rows[0..]
            && Walk(api, rows, None, limit, 0) == rows
  {
    DevicesServable(networkId, rows);
    WalkSeesAll(Devices(networkId), rows, limit);
  }

  /** The page a server answers with: its text fits the frame, and with any more of the
   *  devices it read, under the cursor they would carry, it would not. */
  lemma DevicePageLongest(networkId: Uuid, page: seq<Device>, limit: nat, m: nat)
    requires m <= |page|
    ensures var api := Devices(networkId);
            var r := Trim(api, page, |page|, limit);
            && (r.Page? ==> r.rows <= page && WireBytes(Response(networkId, r.rows, r.next)) <= 65536)
            && ((r.Page? ==> |r.rows| < m) ==>
                  WireBytes(Response(networkId, page[..m], Cursor(api, page[..m], |page|, limit))) > 65536)
  {
    hide WireBytes;
    var api := Devices(networkId);
    TrimFits(api, page, |page|, limit);
    if api.fits(page[..m], Cursor(api, page[..m], |page|, limit)) { TrimLongest(api, page, |page|, limit, m); }
    hide Trim, Cursor;
  }

  /** `run_observation_and_n5_reconciliation` over fixed devices, wherever it fails:
   *  in observing the provider, in the page read after `readable` others, in looking up
   *  the trust of a device, or in reconciling one. */
  method ReconcileDevices(
    rows: seq<Device>, observed: bool, readable: Option<nat>, lookupFails: Device -> bool, reconcileFails: Device -> bool)
    returns (reconciled: seq<Device>, ok: bool)
    requires Stored(rows)
    ensures var trusted := (d: Device) => d.trust.Some?;
            var h := Handling(trusted, lookupFails, reconcileFails);
            && (observed ==> reconciled == Chosen(rows[..Reached(rows, h, readable, PAGE_MAX)], trusted))
            && (!observed ==> reconciled == [])
            && (ok <==> observed && FirstFailure(rows, h) == |rows|
                        && (readable.Some? ==> |rows| < readable.value * PAGE_MAX))
  {
    if !observed { return [], false; }
    var h := Handling((d: Device) => d.trust.Some?, lookupFails, reconcileFails);
    reconciled, ok := Sweep(rows, (d: Device) => UuidText(d.deviceId), h, readable, PAGE_MAX);
  }

  /** The digit of a lower-case hexadecimal character. */
  function DigitOf(c: char): (d: nat)
    requires HexChar(c)
    ensures d < 16
  {
    if c <= '9' then c as nat - '0' as nat else c as nat - 'a' as nat + 10
  }

  lemma Places(i: nat)
    requires i < 36
    ensures i == 8 || i == 13 || i == 18 || i == 23
            || exists k :: 0 <= k < 32 && DigitPlace(k) == i
  {
    var k := if i < 8 then i else if i < 13 then i - 1 else if i < 18 then i - 2 else if i < 23 then i - 3 else i - 4;
    if i != 8 && i != 13 && i != 18 && i != 23 { assert DigitPlace(k) == i; }
  }

  /** The digits that a device ID's text was made of. */
  function DigitsOf(s: string): (u: Uuid)
    requires |s| == 36 && forall i :: 0 <= i < 36 ==> if i in {8, 13, 18, 23} then s[i] == '-' else HexChar(s[i])
  {
    seq(32, k requires 0 <= k < 32 => DigitOf(s[DigitPlace(k)]))
  }

  lemma TextOfDigits(s: string)
    requires |s| == 36 && forall i :: 0 <= i < 36 ==> if i in {8, 13, 18, 23} then s[i] == '-' else HexChar(s[i])
    ensures UuidText(DigitsOf(s)) == s
  {
    var u := DigitsOf(s);
    forall i | 0 <= i < 36 ensures UuidText(u)[i] == s[i] {
      UuidTextExactly(u, i);
      hide UuidText;
      if i !in {8, 13, 18, 23} {
        Places(i);
        var k :| 0 <= k < 32 && DigitPlace(k) == i;
        assert u[k] == DigitOf(s[i]);
      }
    }
  }

  /** A cursor is admitted exactly if it is the text of a device ID, which is never nil. */
  lemma CursorExactly(s: string)
    ensures DeviceIdText(s) <==> exists u: Uuid :: !Nil(u) && s == UuidText(u)
  {
    forall u: Uuid | !Nil(u) && s == UuidText(u) ensures DeviceIdText(s) { OwnDeviceId(u); }
    if DeviceIdText(s) {
      TextOfDigits(s);
      var u := DigitsOf(s);
      var i :| 0 <= i < 36 && s[i] != '-' && s[i] != '0';
      Places(i);
      var k :| 0 <= k < 32 && DigitPlace(k) == i;
      assert u[k] == DigitOf(s[i]) != 0;
      assert !Nil(u) && s == UuidText(u);
    }
  }

  /** A request is refused as invalid exactly for a limit outside 1 to 32, or a cursor
   *  that is not the text of a device ID. */
  lemma RequestExactly(networkId: Uuid, rows: seq<Device>, after: Option<string>, limit: nat)
    ensures Respond(Devices(networkId), rows, after, limit).InvalidRequest? <==>
              || limit == 0 || limit > 32
              || (after.Some? && !exists u: Uuid :: !Nil(u) && after.value == UuidText(u))
  {
    InvalidExactly(Devices(networkId), rows, after, limit);
    if after.Some? {
      CursorExactly(after.value);
      if u: Uuid :| !Nil(u) && after.value == UuidText(u) { OwnDeviceId(u); }
    }
    hide Respond, Utf8, WireBytes, UuidText, DeviceIdText;
  }
}
