/** The digest's byte stream determines a valid projection; transitions keep
 *  projections valid.
 */
module DesiredProjectionProofs {
  import opened Options
  import opened Encoding
  import opened DesiredProjection

  const U64_SPAN: nat := 0x1_0000_0000_0000_0000

  predicate Framable(part: string) { |Utf8(part)| < U64_SPAN }

  // ------------------------------------------------------------ framed parts

  function BytesValue(bytes: seq<byte>): int {
    if bytes == [] then 0 else BytesValue(bytes[..|bytes| - 1]) * 0x100 + bytes[|bytes| - 1] as int
  }

  function Power256(k: nat): nat { if k == 0 then 1 else 0x100 * Power256(k - 1) }

  lemma {:induction false} BigEndianRoundTrip(n: nat, width: nat)
    requires n < Power256(width)
    ensures BytesValue(BigEndian(n, width)) == n
  {
    if width > 0 {
      BigEndianRoundTrip(n / 0x100, width - 1);
      var bytes := BigEndian(n, width);
      assert bytes[..width - 1] == BigEndian(n / 0x100, width - 1);
    }
  }

  lemma LengthRoundTrip(n: nat)
    requires n < U64_SPAN
    ensures BytesValue(BigEndian(n, 8)) == n
  {
    assert Power256(4) == 0x1_0000_0000;
    assert Power256(8) == 0x100 * (0x100 * (0x100 * (0x100 * Power256(4))));
    BigEndianRoundTrip(n, 8);
  }

  lemma FramePrefix(a: string, x: seq<byte>, b: string, y: seq<byte>)
    requires Framable(a) && Framable(b) && Frame(a) + x == Frame(b) + y
    ensures a == b && x == y
  {
    var na, nb := |Utf8(a)|, |Utf8(b)|;
    assert (Frame(a) + x)[..8] == BigEndian(na, 8) && (Frame(b) + y)[..8] == BigEndian(nb, 8);
    LengthRoundTrip(na);
    LengthRoundTrip(nb);
    hide BigEndian;
    assert (Frame(a) + x)[8..8 + na] == Utf8(a) && (Frame(b) + y)[8..8 + nb] == Utf8(b);
    assert (Frame(a) + x)[8 + na..] == x && (Frame(b) + y)[8 + nb..] == y;
    Utf8Injective(a, b);
  }

  ghost predicate AllFramable(parts: seq<string>) {
    forall i :: 0 <= i < |parts| ==> Framable(parts[i])
  }

  lemma FrameNonEmpty(a: string)
    ensures Frame(a) != []
  {
  }

  /** Length-prefixed parts decode uniquely. */
  lemma {:induction false} FramesInjective(a: seq<string>, b: seq<string>)
    requires AllFramable(a) && AllFramable(b) && Frames(a) == Frames(b)
    ensures a == b
  {
    hide Frame, Framable;
    if a == [] {
      if b != [] { FrameNonEmpty(b[0]); }
    } else if b == [] {
      FrameNonEmpty(a[0]);
    } else {
      assert Framable(a[0]) && Framable(b[0]);
      FramePrefix(a[0], Frames(a[1..]), b[0], Frames(b[1..]));
      FramesInjective(a[1..], b[1..]);
      assert a == [a[0]] + a[1..] && b == [b[0]] + b[1..];
    }
  }

  /** The first eight bytes are this length, the highest byte first. */
  predicate LengthBytes(b: seq<byte>, n: nat) {
    && |b| >= 8
    && n == b[0] as int * 0x100_0000_0000_0000 + b[1] as int * 0x1_0000_0000_0000 + b[2] as int * 0x100_0000_0000
            + b[3] as int * 0x1_0000_0000 + b[4] as int * 0x100_0000 + b[5] as int * 0x1_0000 + b[6] as int * 0x100
            + b[7] as int
  }

  /** A stream of parts, each after its length. */
  predicate Framed(bytes: seq<byte>, parts: seq<string>)
    decreases |parts|
  {
    if parts == [] then bytes == []
    else
      var text := Utf8(parts[0]);
      && LengthBytes(bytes, |text|) && 8 + |text| <= |bytes|
      && bytes[8..8 + |text|] == text && Framed(bytes[8 + |text|..], parts[1..])
  }

  lemma LastByte(b: seq<byte>, k: nat)
    requires 0 < k <= |b|
    ensures BytesValue(b[..k]) == BytesValue(b[..k - 1]) * 0x100 + b[k - 1] as int
  {
    assert b[..k][..k - 1] == b[..k - 1];
  }

  lemma EightBytes(b: seq<byte>)
    requires |b| == 8
    ensures BytesValue(b) >= 0 && LengthBytes(b, BytesValue(b))
  {
    assert b[..8] == b && BytesValue(b[..0]) == 0;
    LastByte(b, 1);
    LastByte(b, 2);
    LastByte(b, 3);
    LastByte(b, 4);
    LastByte(b, 5);
    LastByte(b, 6);
    LastByte(b, 7);
    LastByte(b, 8);
    hide BytesValue;
  }

  lemma FrameLength(part: string, rest: seq<byte>)
    requires Framable(part)
    ensures LengthBytes(Frame(part) + rest, |Utf8(part)|)
    ensures (Frame(part) + rest)[8..8 + |Utf8(part)|] == Utf8(part)
    ensures (Frame(part) + rest)[8 + |Utf8(part)|..] == rest
  {
    var b := BigEndian(|Utf8(part)|, 8);
    LengthRoundTrip(|Utf8(part)|);
    EightBytes(b);
    hide BigEndian, BytesValue, Utf8;
  }

  lemma {:induction false} FramesFramed(parts: seq<string>)
    requires AllFramable(parts)
    ensures Framed(Frames(parts), parts)
  {
    if parts != [] {
      assert Framable(parts[0]);
      FrameLength(parts[0], Frames(parts[1..]));
      FramesFramed(parts[1..]);
      hide Framable, Utf8, LengthBytes, Frame;
    }
  }

  /** A name in front of the others, if it is there. */
  function Put(there: bool, name: string, rest: seq<string>): seq<string> {
    if there then [name] + rest else rest
  }

  function ListedGrants(grants: set<Operation>): seq<string> {
    Put(FleetHealth in grants, "fleet.health",
    Put(FleetInventory in grants, "fleet.inventory",
    Put(FleetMessage in grants, "fleet.message",
    Put(FleetHermesRun in grants, "fleet.hermes.run", ["grants-end"]))))
  }

  function ListedRoles(roles: set<Role>, rest: seq<string>): seq<string> {
    Put(Node in roles, "node",
    Put(Worker in roles, "worker",
    Put(Controller in roles, "controller",
    Put(ProfileHost in roles, "profile_host",
    Put(Observer in roles, "observer",
    Put(Admin in roles, "admin", ["roles-end"] + rest))))))
  }

  /** What is hashed, in order. */
  function Listed(p: Projection): seq<string> {
    var e, m := p.enrollment, p.membership;
    ["nodescale.n7.fleet-projection.v1", "nodescale",
     if e == Pending then "pending" else if e == Disabled then "disabled" else "removed",
     UuidText(p.networkId), UuidText(p.deviceId), p.displayName,
     if m == MemberPending then "pending" else if m == Joining then "joining" else if m == Active then "active"
     else if m == Suspended then "suspended" else if m == Revoking then "revoking" else "revoked",
     Decimal(p.membershipGeneration), Decimal(p.projectionGeneration),
     UuidText(p.provenance.bindingId), p.provenance.peerId, Decimal(p.provenance.generation)]
    + ListedRoles(p.roles, ListedGrants(p.grants))
  }

  lemma RoleStep(k: nat, roles: set<Role>, rest: seq<string>)
    requires k < 6
    ensures RoleNames(ROLES[k..], roles) + rest ==
            Put(ROLES[k] in roles, RoleName(ROLES[k]), RoleNames(ROLES[k + 1..], roles) + rest)
  {
    assert ROLES[k..][1..] == ROLES[k + 1..] && ROLES[k..][0] == ROLES[k];
    hide RoleName;
  }

  lemma RolesListed(roles: set<Role>, rest: seq<string>)
    ensures RoleNames(ROLES, roles) + (["roles-end"] + rest) == ListedRoles(roles, rest)
  {
    var tail := ["roles-end"] + rest;
    RoleStep(0, roles, tail);
    RoleStep(1, roles, tail);
    RoleStep(2, roles, tail);
    RoleStep(3, roles, tail);
    RoleStep(4, roles, tail);
    RoleStep(5, roles, tail);
    assert ROLES[0..] == ROLES && ROLES[6..] == [] && RoleNames([], roles) + tail == tail;
    hide Put, RoleNames;
  }

  lemma GrantStep(k: nat, grants: set<Operation>, rest: seq<string>)
    requires k < 4
    ensures GrantNames(OPERATIONS[k..], grants) + rest ==
            Put(OPERATIONS[k] in grants, OperationName(OPERATIONS[k]), GrantNames(OPERATIONS[k + 1..], grants) + rest)
  {
    assert OPERATIONS[k..][1..] == OPERATIONS[k + 1..] && OPERATIONS[k..][0] == OPERATIONS[k];
    hide OperationName;
  }

  lemma GrantsListed(grants: set<Operation>)
    ensures GrantNames(OPERATIONS, grants) + ["grants-end"] == ListedGrants(grants)
  {
    var tail := ["grants-end"];
    GrantStep(0, grants, tail);
    GrantStep(1, grants, tail);
    GrantStep(2, grants, tail);
    GrantStep(3, grants, tail);
    assert OPERATIONS[0..] == OPERATIONS && OPERATIONS[4..] == [] && GrantNames([], grants) + tail == tail;
    hide Put, GrantNames;
  }

  lemma HeaderListed(p: Projection)
    ensures Listed(p) == Header(p) + ListedRoles(p.roles, ListedGrants(p.grants))
  {
    hide UuidText, Decimal, ListedRoles, ListedGrants;
  }

  /** The hashed stream of a valid projection is the listed parts, each after its length. */
  lemma StreamRead(p: Projection)
    requires Check(p) == None
    ensures Framed(Frames(Parts(p)), Listed(p))
  {
    hide Check, Framed, Frames, Header, RoleNames, GrantNames, Listed, ListedRoles, ListedGrants;
    PartsFramable(p);
    FramesFramed(Parts(p));
    GrantsListed(p.grants);
    RolesListed(p.roles, ListedGrants(p.grants));
    HeaderListed(p);
  }

  // ----------------------------------------------------------------- markers

  /** An end marker that is no element of either list splits both at one place. */
  lemma {:induction false} SplitAtMarker(a: seq<string>, x: seq<string>, b: seq<string>, y: seq<string>, m: string)
    requires m !in a && m !in b && a + ([m] + x) == b + ([m] + y)
    ensures a == b && x == y
  {
    var s, t := a + ([m] + x), b + ([m] + y);
    assert s[|a|] == m && t[|b|] == m;
    assert a != [] ==> s[0] == a[0];
    assert b != [] ==> t[0] == b[0];
    if a == [] && b == [] {
      assert s[1..] == x && t[1..] == y;
    } else if a == [] {
      assert false;
    } else if b == [] {
      assert false;
    } else {
      assert s[0] == a[0] && t[0] == b[0];
      assert s[1..] == a[1..] + ([m] + x) && t[1..] == b[1..] + ([m] + y);
      SplitAtMarker(a[1..], x, b[1..], y, m);
      assert a == [a[0]] + a[1..] && b == [b[0]] + b[1..];
    }
  }

  lemma RoleNameApart(r: Role, s: Role)
    ensures RoleName(r) == RoleName(s) <==> r == s
    ensures RoleName(r) != "roles-end"
  {
    assert |"node"| == 4 && |"worker"| == 6 && |"controller"| == 10 && |"profile_host"| == 12
           && |"observer"| == 8 && |"admin"| == 5 && |"roles-end"| == 9;
  }

  lemma OperationNameApart(o: Operation, p: Operation)
    ensures OperationName(o) == OperationName(p) <==> o == p
    ensures OperationName(o) != "grants-end"
  {
    assert |"fleet.health"| == 12 && |"fleet.inventory"| == 15 && |"fleet.message"| == 13
           && |"fleet.hermes.run"| == 16 && |"grants-end"| == 10;
  }

  lemma {:induction false} NamesOfRoles(all: seq<Role>, roles: set<Role>)
    ensures forall name :: name in RoleNames(all, roles) <==>
              exists r :: r in all && r in roles && name == RoleName(r)
    ensures "roles-end" !in RoleNames(all, roles)
  {
    if all != [] {
      NamesOfRoles(all[1..], roles);
      RoleNameApart(all[0], all[0]);
      assert forall r :: r in all <==> r == all[0] || r in all[1..];
    }
  }

  lemma {:induction false} NamesOfGrants(all: seq<Operation>, grants: set<Operation>)
    ensures forall name :: name in GrantNames(all, grants) <==>
              exists o :: o in all && o in grants && name == OperationName(o)
    ensures "grants-end" !in GrantNames(all, grants)
  {
    if all != [] {
      NamesOfGrants(all[1..], grants);
      OperationNameApart(all[0], all[0]);
      assert forall o :: o in all <==> o == all[0] || o in all[1..];
    }
  }

  lemma AllRoles(r: Role)
    ensures r in ROLES
  {
    assert ROLES[0] == Node && ROLES[1] == Worker && ROLES[2] == Controller && ROLES[3] == ProfileHost
           && ROLES[4] == Observer && ROLES[5] == Admin;
  }

  lemma AllOperations(o: Operation)
    ensures o in OPERATIONS
  {
    assert OPERATIONS[0] == FleetHealth && OPERATIONS[1] == FleetInventory && OPERATIONS[2] == FleetMessage
           && OPERATIONS[3] == FleetHermesRun;
  }

  lemma RolesInjective(a: set<Role>, b: set<Role>)
    requires RoleNames(ROLES, a) == RoleNames(ROLES, b)
    ensures a == b
  {
    NamesOfRoles(ROLES, a);
    NamesOfRoles(ROLES, b);
    hide RoleNames, RoleName;
    forall r ensures r in a <==> r in b {
      AllRoles(r);
      forall s ensures RoleName(r) == RoleName(s) <==> r == s { RoleNameApart(r, s); }
      assert RoleName(r) in RoleNames(ROLES, a) <==> r in a;
      assert RoleName(r) in RoleNames(ROLES, b) <==> r in b;
    }
  }

  lemma GrantsInjective(a: set<Operation>, b: set<Operation>)
    requires GrantNames(OPERATIONS, a) == GrantNames(OPERATIONS, b)
    ensures a == b
  {
    NamesOfGrants(OPERATIONS, a);
    NamesOfGrants(OPERATIONS, b);
    hide GrantNames, OperationName;
    forall o ensures o in a <==> o in b {
      AllOperations(o);
      forall p ensures OperationName(o) == OperationName(p) <==> o == p { OperationNameApart(o, p); }
      assert OperationName(o) in GrantNames(OPERATIONS, a) <==> o in a;
      assert OperationName(o) in GrantNames(OPERATIONS, b) <==> o in b;
    }
  }

  // ------------------------------------------------------------------- header

  lemma EnrollmentNameApart(a: Enrollment, b: Enrollment)
    ensures EnrollmentName(a) == EnrollmentName(b) <==> a == b
  {
    assert |"pending"| == 7 && |"disabled"| == 8 && |"removed"| == 7 && "pending"[0] != "removed"[0];
  }

  lemma MembershipNameApart(a: Membership, b: Membership)
    ensures MembershipName(a) == MembershipName(b) <==> a == b
  {
    assert |"pending"| == 7 && |"joining"| == 7 && |"active"| == 6 && |"suspended"| == 9 && |"revoking"| == 8
           && |"revoked"| == 7 && "pending"[0] == 'p' && "joining"[0] == 'j' && "revoked"[0] == 'r';
  }

  /** The header determines every field it is made from. */
  lemma HeaderInjective(p: Projection, q: Projection)
    requires Header(p) == Header(q)
    ensures p.enrollment == q.enrollment && p.networkId == q.networkId && p.deviceId == q.deviceId
    ensures p.displayName == q.displayName && p.membership == q.membership
    ensures p.membershipGeneration == q.membershipGeneration && p.projectionGeneration == q.projectionGeneration
    ensures p.provenance.bindingId == q.provenance.bindingId && p.provenance.peerId == q.provenance.peerId
    ensures p.provenance.generation == q.provenance.generation
  {
    var h, k := Header(p), Header(q);
    assert forall i :: 2 <= i < 12 ==> h[i] == k[i];
    EnrollmentNameApart(p.enrollment, q.enrollment);
    MembershipNameApart(p.membership, q.membership);
    UuidTextInjective(p.networkId, q.networkId);
    UuidTextInjective(p.deviceId, q.deviceId);
    UuidTextInjective(p.provenance.bindingId, q.provenance.bindingId);
    DecimalInjective(p.membershipGeneration, q.membershipGeneration);
    DecimalInjective(p.projectionGeneration, q.projectionGeneration);
    DecimalInjective(p.provenance.generation, q.provenance.generation);
    hide EnrollmentName, MembershipName, UuidText, Decimal;
    assert h[2] == k[2] && h[3] == k[3] && h[4] == k[4] && h[5] == k[5] && h[6] == k[6] && h[7] == k[7]
           && h[8] == k[8] && h[9] == k[9] && h[10] == k[10] && h[11] == k[11];
  }

  // ------------------------------------------------------ parts can be framed

  lemma {:induction false} Utf8AtMost(s: string)
    ensures |Utf8(s)| <= 4 * |s|
  {
    if s != "" { Utf8AtMost(s[1..]); }
  }

  lemma ShortFramable(s: string)
    requires |s| <= 0x1000
    ensures Framable(s)
  {
    Utf8AtMost(s);
  }

  lemma HeaderFramable(p: Projection)
    requires |Utf8(p.displayName)| <= 128 && |p.provenance.peerId| <= 255
    ensures AllFramable(Header(p))
  {
    U64Short(p.membershipGeneration);
    U64Short(p.projectionGeneration);
    U64Short(p.provenance.generation);
    var h := Header(p);
    hide Decimal, UuidText;
    forall i | 0 <= i < |h| ensures Framable(h[i]) {
      if i != 5 {
        assert |h[i]| <= 0x1000;
        ShortFramable(h[i]);
      }
    }
  }

  lemma {:induction false} RolesShort(all: seq<Role>, roles: set<Role>)
    ensures forall i :: 0 <= i < |RoleNames(all, roles)| ==> |RoleNames(all, roles)[i]| <= 20
  {
    if all != [] { RolesShort(all[1..], roles); }
  }

  lemma {:induction false} GrantsShort(all: seq<Operation>, grants: set<Operation>)
    ensures forall i :: 0 <= i < |GrantNames(all, grants)| ==> |GrantNames(all, grants)[i]| <= 20
  {
    if all != [] { GrantsShort(all[1..], grants); }
  }

  lemma PartsFramable(p: Projection)
    requires Check(p) == None
    ensures AllFramable(Parts(p))
  {
    HeaderFramable(p);
    RolesShort(ROLES, p.roles);
    GrantsShort(OPERATIONS, p.grants);
    var roles, grants := RoleNames(ROLES, p.roles), GrantNames(OPERATIONS, p.grants);
    var tail := roles + (["roles-end"] + (grants + ["grants-end"]));
    hide Header, RoleNames, GrantNames, Framable;
    forall i | 0 <= i < |tail| ensures Framable(tail[i]) {
      assert |tail[i]| <= 0x1000;
      ShortFramable(tail[i]);
    }
    var parts := Parts(p);
    forall i | 0 <= i < |parts| ensures Framable(parts[i]) {
      if i >= |Header(p)| { assert parts[i] == tail[i - |Header(p)|]; }
    }
  }

  // ---------------------------------------------------------------- injectivity

  lemma PartsInjective(p: Projection, q: Projection)
    requires Parts(p) == Parts(q)
    ensures Header(p) == Header(q) && p.roles == q.roles && p.grants == q.grants
  {
    var a, b := RoleNames(ROLES, p.roles), RoleNames(ROLES, q.roles);
    var x, y := GrantNames(OPERATIONS, p.grants), GrantNames(OPERATIONS, q.grants);
    NamesOfRoles(ROLES, p.roles);
    NamesOfRoles(ROLES, q.roles);
    NamesOfGrants(OPERATIONS, p.grants);
    NamesOfGrants(OPERATIONS, q.grants);
    assert Parts(p)[..12] == Header(p) && Parts(q)[..12] == Header(q);
    assert Parts(p)[12..] == a + (["roles-end"] + (x + ["grants-end"]));
    assert Parts(q)[12..] == b + (["roles-end"] + (y + ["grants-end"]));
    hide Header, RoleNames, GrantNames;
    SplitAtMarker(a, x + ["grants-end"], b, y + ["grants-end"], "roles-end");
    assert x == (x + ["grants-end"])[..|x|] && y == (y + ["grants-end"])[..|y|];
    RolesInjective(p.roles, q.roles);
    GrantsInjective(p.grants, q.grants);
  }

  /** Two valid projections have the same byte stream exactly when they are equal in
   *  every field but the digest itself. */
  lemma StreamExactly(p: Projection, q: Projection)
    requires Check(p) == None && Check(q) == None
    ensures Frames(Parts(p)) == Frames(Parts(q)) <==> p.(digest := "") == q.(digest := "")
  {
    hide Frames, Parts, Header;
    if Frames(Parts(p)) == Frames(Parts(q)) {
      hide Check;
      PartsFramable(p);
      PartsFramable(q);
      FramesInjective(Parts(p), Parts(q));
      PartsInjective(p, q);
      HeaderInjective(p, q);
      OwnNetworkAndDevice(p);
      OwnNetworkAndDevice(q);
    } else if p.(digest := "") == q.(digest := "") {
      SameParts(p, q);
    }
  }

  /** The provenance's network and device are not hashed, but validated. */
  lemma OwnNetworkAndDevice(p: Projection)
    requires Check(p) == None
    ensures p.provenance.networkId == p.networkId && p.provenance.deviceId == p.deviceId
  {
  }

  lemma SameParts(p: Projection, q: Projection)
    requires p.(digest := "") == q.(digest := "")
    ensures Parts(p) == Parts(q)
  {
    assert p == q.(digest := p.digest);
  }

  // --------------------------------------------------------------- validation

  predicate SomeNonZero(u: Uuid) { exists i :: 0 <= i < 32 && u[i] != 0 }

  /** Validation admits exactly the projections that are named, numbered from 1, their own
   *  device's, with a role, with nothing to run, and without grants once disabled. */
  lemma ValidExactly(p: Projection)
    ensures Check(p) == None <==>
              && SomeNonZero(p.networkId) && SomeNonZero(p.deviceId) && SomeNonZero(p.provenance.bindingId)
              && p.provenance.networkId == p.networkId && p.provenance.deviceId == p.deviceId
              && (exists i :: 0 <= i < |p.displayName| && !WhiteSpace(p.displayName[i]))
              && |Utf8(p.displayName)| <= 128
              && (forall i :: 0 <= i < |p.displayName| ==>
                    0x20 <= p.displayName[i] as int < 0x7f || 0xa0 <= p.displayName[i] as int)
              && 1 <= |p.provenance.peerId| <= 255
              && (forall i :: 0 <= i < |p.provenance.peerId| ==>
                    var c := p.provenance.peerId[i];
                    'a' <= c <= 'z' || 'A' <= c <= 'Z' || '0' <= c <= '9' || c == '-' || c == '_' || c == ':' || c == '.')
              && p.membershipGeneration > 0 && p.projectionGeneration > 0 && p.provenance.generation > 0
              && (exists r :: r in p.roles) && FleetHermesRun !in p.grants
              && (p.enrollment == Pending || p.grants == {})
  {
    if p.roles != {} { var r :| r in p.roles; }
    hide WhiteSpace, Utf8;
  }

  /** Each refusal names a fault the projection has. */
  lemma FaultNamed(p: Projection)
    ensures Check(p) == Some(BadIdentifier) ==>
              || Nil(p.networkId) || Nil(p.deviceId) || Nil(p.provenance.networkId) || Nil(p.provenance.deviceId)
              || Nil(p.provenance.bindingId) || !IdentifierOk(p.provenance.peerId)
    ensures Check(p) == Some(BadDisplayName) ==> !DisplayNameOk(p.displayName)
    ensures Check(p) == Some(BadGeneration) ==>
              p.membershipGeneration == 0 || p.projectionGeneration == 0 || p.provenance.generation == 0
    ensures Check(p) == Some(BadProvenance) ==>
              p.provenance.networkId != p.networkId || p.provenance.deviceId != p.deviceId
    ensures Check(p) == Some(BadRoles) ==> p.roles == {}
    ensures Check(p) == Some(BadGrants) ==> FleetHermesRun in p.grants || (p.enrollment != Pending && p.grants != {})
    ensures Check(p) != Some(BadDigest) && Check(p) != Some(InvalidTransition) && Check(p) != Some(NonMonotonicGeneration)
  {
    hide Nil, IdentifierOk, DisplayNameOk;
  }

  /** Of a projection that passes, one digest is valid: the hash of its own stream. */
  lemma OneDigest(p: Projection, d: string)
    requires Check(p) == None
    ensures Validate(p.(digest := d)) == if d == Sha256Hex(Frames(Parts(p))) then None else Some(BadDigest)
  {
    SameParts(p.(digest := d), p);
    CheckIgnoresDigest(p, d);
    hide Check, Frames, Parts;
  }

  // -------------------------------------------------------------- transitions

  /** `from_parts`. */
  function FromParts(p: Projection): Result<Projection> {
    match Check(p)
    case Some(e) => Err(e)
    case None => Ok(p.(digest := Digest(p)))
  }

  /** `disable` and `remove`. */
  function Transition(p: Projection, next: Enrollment, generation: U64): Result<Projection> {
    match Validate(p)
    case Some(e) => Err(e)
    case None =>
      if p.enrollment == Removed then Err(InvalidTransition)
      else if generation <= p.projectionGeneration then Err(NonMonotonicGeneration)
      else FromParts(p.(enrollment := next, projectionGeneration := generation, grants := {}))
  }

  lemma DigestIgnoresItself(p: Projection, d: string)
    ensures Digest(p.(digest := d)) == Digest(p) && Check(p.(digest := d)) == Check(p)
  {
    SameParts(p.(digest := d), p);
    CheckIgnoresDigest(p, d);
  }

  lemma CheckIgnoresDigest(p: Projection, d: string)
    ensures Check(p.(digest := d)) == Check(p)
  {
  }

  /** Disabling or removing succeeds exactly on a valid projection that was not
   *  removed yet and a later generation; the result is valid, carries no grants,
   *  and has a byte stream of its own. */
  lemma TransitionExactly(p: Projection, next: Enrollment, generation: U64)
    requires next != Pending
    ensures var r := Transition(p, next, generation);
            && (r.Ok? <==> Validate(p) == None && p.enrollment != Removed && p.projectionGeneration < generation)
            && (Validate(p) != None ==> r == Err(Validate(p).value))
            && (Validate(p) == None && p.enrollment == Removed ==> r == Err(InvalidTransition))
            && (Validate(p) == None && p.enrollment != Removed && generation <= p.projectionGeneration ==>
                  r == Err(NonMonotonicGeneration))
            && (r.Ok? ==>
                  && Validate(r.value) == None && r.value.grants == {} && r.value.enrollment == next
                  && r.value == p.(enrollment := next, projectionGeneration := generation, grants := {},
                                   digest := r.value.digest)
                  && Frames(Parts(r.value)) != Frames(Parts(p)))
  {
    hide Digest, Check, Frames, Parts, Validate;
    if Validate(p) == None && p.enrollment != Removed && p.projectionGeneration < generation {
      Transitioned(p, next, generation);
      ValidChecks(p);
      ValidChecks(Transition(p, next, generation).value);
      StreamExactly(Transition(p, next, generation).value, p);
    }
  }

  lemma ValidChecks(p: Projection)
    requires Validate(p) == None
    ensures Check(p) == None
  {
    hide Check, Digest;
  }

  /** A transition that is allowed ends in the new projection under its own digest. */
  lemma Transitioned(p: Projection, next: Enrollment, generation: U64)
    requires next != Pending && Validate(p) == None && p.enrollment != Removed && p.projectionGeneration < generation
    ensures var q := p.(enrollment := next, projectionGeneration := generation, grants := {});
            && Transition(p, next, generation) == Ok(q.(digest := Digest(q)))
            && Validate(q.(digest := Digest(q))) == None
  {
    var q := p.(enrollment := next, projectionGeneration := generation, grants := {});
    ValidChecks(p);
    CheckAfter(p, next, generation);
    DigestIgnoresItself(q, Digest(q));
    hide Digest, Check;
  }

  lemma CheckAfter(p: Projection, next: Enrollment, generation: U64)
    requires Check(p) == None && generation > 0
    ensures Check(p.(enrollment := next, projectionGeneration := generation, grants := {})) == None
  {
  }

  /** Removal is terminal: nothing follows it, whatever generation is offered. */
  lemma RemovalIsTerminal(p: Projection, g: U64, next: Enrollment, h: U64)
    requires Transition(p, Removed, g).Ok?
    ensures Transition(Transition(p, Removed, g).value, next, h) == Err(InvalidTransition)
  {
    TransitionExactly(p, Removed, g);
  }
}
