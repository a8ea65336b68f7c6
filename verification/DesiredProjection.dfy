/** Nodescale's desired Fleet projection: its validation, its transitions and the
 *  byte stream its content digest is computed over.
 */
module DesiredProjection {
  import opened Options
  import opened Encoding

  type U64 = n: nat | n <= 0xffff_ffff_ffff_ffff

  datatype Enrollment = Pending | Disabled | Removed

  function EnrollmentName(e: Enrollment): string {
    match e
    case Pending => "pending"
    case Disabled => "disabled"
    case Removed => "removed"
  }

  datatype Membership = MemberPending | Joining | Active | Suspended | Revoking | Revoked

  function MembershipName(m: Membership): string {
    match m
    case MemberPending => "pending"
    case Joining => "joining"
    case Active => "active"
    case Suspended => "suspended"
    case Revoking => "revoking"
    case Revoked => "revoked"
  }

  datatype Role = Node | Worker | Controller | ProfileHost | Observer | Admin

  const ROLES := [Node, Worker, Controller, ProfileHost, Observer, Admin]

  function RoleName(r: Role): string {
    match r
    case Node => "node"
    case Worker => "worker"
    case Controller => "controller"
    case ProfileHost => "profile_host"
    case Observer => "observer"
    case Admin => "admin"
  }

  datatype Operation = FleetHealth | FleetInventory | FleetMessage | FleetHermesRun

  const OPERATIONS := [FleetHealth, FleetInventory, FleetMessage, FleetHermesRun]

  function OperationName(o: Operation): string {
    match o
    case FleetHealth => "fleet.health"
    case FleetInventory => "fleet.inventory"
    case FleetMessage => "fleet.message"
    case FleetHermesRun => "fleet.hermes.run"
  }

  datatype Provenance = Provenance(networkId: Uuid, deviceId: Uuid, bindingId: Uuid, peerId: string, generation: U64)

  /** Values may come from storage, so nothing here is valid by construction. */
  datatype Projection = Projection(
    networkId: Uuid,
    deviceId: Uuid,
    displayName: string,
    membership: Membership,
    membershipGeneration: U64,
    projectionGeneration: U64,
    provenance: Provenance,
    roles: set<Role>,
    enrollment: Enrollment,
    grants: set<Operation>,
    digest: string)

  datatype Error =
    | BadIdentifier | BadDisplayName | BadGeneration | BadProvenance | BadRoles | BadGrants | BadDigest
    | InvalidTransition | NonMonotonicGeneration

  datatype Result<T> = Ok(value: T) | Err(error: Error)

  /** The lowercase hexadecimal SHA-256 of a byte stream, left uninterpreted. */
  const Sha256Hex: seq<byte> -> string

  // --------------------------------------------------------------- validation

  predicate WhiteSpace(c: char) {
    var n := c as int;
    9 <= n <= 13 || n == 0x20 || n == 0x85 || n == 0xa0 || n == 0x1680 || 0x2000 <= n <= 0x200a
    || n == 0x2028 || n == 0x2029 || n == 0x202f || n == 0x205f || n == 0x3000
  }

  predicate DisplayNameOk(s: string) {
    && (exists i :: 0 <= i < |s| && !WhiteSpace(s[i]))
    && |Utf8(s)| <= 128
    && (forall i :: 0 <= i < |s| ==> !Control(s[i]))
  }

  /** `validate_without_digest`: the first check that fails. */
  function Check(p: Projection): Option<Error> {
    var b := p.provenance;
    if Nil(p.networkId) || Nil(p.deviceId) then Some(BadIdentifier)
    else if !DisplayNameOk(p.displayName) then Some(BadDisplayName)
    else if p.membershipGeneration == 0 || p.projectionGeneration == 0 then Some(BadGeneration)
    else if Nil(b.networkId) || Nil(b.deviceId) || Nil(b.bindingId) || !IdentifierOk(b.peerId) then Some(BadIdentifier)
    else if b.generation == 0 then Some(BadGeneration)
    else if b.networkId != p.networkId || b.deviceId != p.deviceId then Some(BadProvenance)
    else if p.roles == {} then Some(BadRoles)
    else if FleetHermesRun in p.grants then Some(BadGrants)
    else if p.enrollment != Pending && p.grants != {} then Some(BadGrants)
    else None
  }

  /** `validate`. */
  function Validate(p: Projection): Option<Error> {
    match Check(p)
    case Some(e) => Some(e)
    case None => if p.digest == Digest(p) then None else Some(BadDigest)
  }

  // ------------------------------------------------------------------- stream

  /** `u64::to_be_bytes` of a length, truncated as the cast does. */
  function BigEndian(n: nat, width: nat): (bytes: seq<byte>)
    ensures |bytes| == width
  {
    if width == 0 then [] else BigEndian(n / 0x100, width - 1) + [(n % 0x100) as byte]
  }

  function Frame(part: string): seq<byte> { BigEndian(|Utf8(part)|, 8) + Utf8(part) }

  function Frames(parts: seq<string>): seq<byte> {
    if parts == [] then [] else Frame(parts[0]) + Frames(parts[1..])
  }

  /** The twelve parts every projection has. */
  function Header(p: Projection): seq<string> {
    ["nodescale.n7.fleet-projection.v1", "nodescale", EnrollmentName(p.enrollment),
     UuidText(p.networkId), UuidText(p.deviceId), p.displayName, MembershipName(p.membership),
     Decimal(p.membershipGeneration), Decimal(p.projectionGeneration),
     UuidText(p.provenance.bindingId), p.provenance.peerId, Decimal(p.provenance.generation)]
  }

  /** The names of a set's roles, in declaration order. */
  function RoleNames(all: seq<Role>, roles: set<Role>): seq<string> {
    if all == [] then []
    else (if all[0] in roles then [RoleName(all[0])] else []) + RoleNames(all[1..], roles)
  }

  function GrantNames(all: seq<Operation>, grants: set<Operation>): seq<string> {
    if all == [] then []
    else (if all[0] in grants then [OperationName(all[0])] else []) + GrantNames(all[1..], grants)
  }

  function Parts(p: Projection): seq<string> {
    Header(p) + (RoleNames(ROLES, p.roles) + (["roles-end"] + (GrantNames(OPERATIONS, p.grants) + ["grants-end"])))
  }

  function Digest(p: Projection): string { Sha256Hex(Frames(Parts(p))) }

  // ------------------------------------------------------- the mutable hasher

  class Hasher {
    var fed: seq<byte>

    constructor ()
      ensures fed == []
    {
      fed := [];
    }

    method Update(bytes: seq<byte>)
      modifies this
      ensures fed == old(fed) + bytes
    {
      fed := fed + bytes;
    }
  }

  method CanonicalPart(hasher: Hasher, value: string)
    modifies hasher
    ensures hasher.fed == old(hasher.fed) + Frame(value)
  {
    hide Utf8, BigEndian;
    hasher.Update(BigEndian(|Utf8(value)|, 8));
    hasher.Update(Utf8(value));
  }

  lemma {:induction false} FramesAppend(a: seq<string>, b: seq<string>)
    ensures Frames(a + b) == Frames(a) + Frames(b)
  {
    if a == [] {
      assert a + b == b;
    } else {
      hide Frame;
      assert (a + b)[1..] == a[1..] + b && (a + b)[0] == a[0];
      FramesAppend(a[1..], b);
      assert Frames(a + b) == Frame(a[0]) + (Frames(a[1..]) + Frames(b));
    }
  }

  lemma FramesSnoc(a: seq<string>, x: string)
    ensures Frames(a + [x]) == Frames(a) + Frame(x)
  {
    FramesAppend(a, [x]);
    assert [x][1..] == [];
    assert Frames([x]) == Frame(x) + Frames([]);
  }

  method CanonicalParts(hasher: Hasher, parts: seq<string>)
    modifies hasher
    ensures hasher.fed == old(hasher.fed) + Frames(parts)
  {
    hide Frame;
    for i := 0 to |parts|
      invariant hasher.fed == old(hasher.fed) + Frames(parts[..i])
    {
      FramesSnoc(parts[..i], parts[i]);
      assert parts[..i + 1] == parts[..i] + [parts[i]];
      CanonicalPart(hasher, parts[i]);
    }
    assert parts[..|parts|] == parts;
  }

  method ComputeContentDigest(p: Projection) returns (digest: string)
    ensures digest == Digest(p)
  {
    var hasher := new Hasher();
    var header, roles, grants := Header(p), RoleNames(ROLES, p.roles), GrantNames(OPERATIONS, p.grants);
    FedIsStream(header, roles, "roles-end", grants, "grants-end");
    hide Frames, Frame, Header, RoleNames, GrantNames;
    CanonicalParts(hasher, header);
    CanonicalParts(hasher, roles);
    CanonicalPart(hasher, "roles-end");
    CanonicalParts(hasher, grants);
    CanonicalPart(hasher, "grants-end");
    digest := Sha256Hex(hasher.fed);
  }

  lemma FramesCons(x: string, rest: seq<string>)
    ensures Frames([x] + rest) == Frame(x) + Frames(rest)
  {
    assert ([x] + rest)[1..] == rest;
  }

  lemma Regroup(a: seq<byte>, b: seq<byte>, c: seq<byte>, d: seq<byte>, e: seq<byte>)
    ensures [] + a + b + c + d + e == a + (b + (c + (d + e)))
  {
  }

  lemma FedIsStream(header: seq<string>, roles: seq<string>, r: string, grants: seq<string>, g: string)
    ensures [] + Frames(header) + Frames(roles) + Frame(r) + Frames(grants) + Frame(g) ==
            Frames(header + (roles + ([r] + (grants + [g]))))
  {
    hide Frame, Frames;
    FramesSnoc(grants, g);
    FramesCons(r, grants + [g]);
    FramesAppend(roles, [r] + (grants + [g]));
    FramesAppend(header, roles + ([r] + (grants + [g])));
    Regroup(Frames(header), Frames(roles), Frame(r), Frames(grants), Frame(g));
  }
}
