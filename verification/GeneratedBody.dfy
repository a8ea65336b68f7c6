/** The body a projection is compared by: what Fleet generated for a device. */
module GeneratedBody {
  import opened Options
  import opened Encoding
  import opened Json
  import opened CanonicalJson
  import opened TextOrder
  import opened ProjectionDocument
  import FleetLedger
  import DesiredProjection

  type Enrollment = DesiredProjection.Enrollment

  datatype GeneratedState = Active | Disabled | Removed

  function StateName(s: GeneratedState): string {
    match s
    case Active => "active"
    case Disabled => "disabled"
    case Removed => "removed"
  }

  function StateOf(e: Enrollment): GeneratedState {
    match e
    case Pending => Active
    case Disabled => GeneratedState.Disabled
    case Removed => GeneratedState.Removed
  }

  /** Every authoritative field Fleet returns for a generated record. */
  datatype Generated = Generated(
    state: GeneratedState, generations: Generations, contentHash: string, allowed: seq<Grant>, provenance: Provenance)

  /** What Fleet should have generated for a document. */
  function Expected(d: Document, e: Enrollment): Generated {
    Generated(StateOf(e), d.generations, d.contentHash, d.grants, d.provenance)
  }

  function BodyMembers(g: Generated): seq<Member> {
    [("state", Str(StateName(g.state))),
     ("projection_generation", Str(g.generations.projection)),
     ("membership_generation", Str(g.generations.membership)),
     ("binding_generation", Str(g.generations.binding)),
     ("content_hash", Str(g.contentHash)),
     ("allowed_operations", Arr(Wires(g.allowed))),
     ("provenance", Obj(ProvenanceMembers(g.provenance)))]
  }

  /** `generated_body_parts`. */
  function BodyText(g: Generated): string { Stored(Obj(BodyMembers(g))) }

  function BodyOf(g: Generated): FleetLedger.Body {
    BodyLong(g);
    Utf8(BodyText(g))
  }

  lemma BodyLong(g: Generated)
    ensures |Utf8(BodyText(g))| > 1
  {
    var c := Canonical(Obj(BodyMembers(g)));
    assert Compact(c, false) == "{" + CompactMembers(c.members, false) + "}";
    hide CompactMembers, Canonical, Utf8;
  }

  lemma BodyKeys(g: Generated)
    ensures UniqueKeys(BodyMembers(g))
  {
    var keys := ["state", "projection_generation", "membership_generation", "binding_generation", "content_hash",
                 "allowed_operations", "provenance"];
    assert forall i :: 0 <= i < 7 ==> BodyMembers(g)[i].0 == keys[i];
    assert |"state"| == 5 && |"projection_generation"| == 21 && |"membership_generation"| == 21
           && |"binding_generation"| == 18 && |"content_hash"| == 12 && |"allowed_operations"| == 18 && |"provenance"| == 10
           && "binding_generation"[0] != "allowed_operations"[0]
           && "projection_generation"[0] != "membership_generation"[0];
  }

  lemma BodyMember(g: Generated)
    ensures var m := BodyMembers(g);
            && ("state", Str(StateName(g.state))) in m
            && ("projection_generation", Str(g.generations.projection)) in m
            && ("membership_generation", Str(g.generations.membership)) in m
            && ("binding_generation", Str(g.generations.binding)) in m
            && ("content_hash", Str(g.contentHash)) in m
            && ("allowed_operations", Arr(Wires(g.allowed))) in m
            && ("provenance", Obj(ProvenanceMembers(g.provenance))) in m
  {
    var m := BodyMembers(g);
    assert m[0] in m && m[1] in m && m[2] in m && m[3] in m && m[4] in m && m[5] in m && m[6] in m;
  }

  lemma StateNameApart(a: GeneratedState, b: GeneratedState)
    ensures StateName(a) == StateName(b) <==> a == b
  {
    assert "active"[0] == 'a' && "disabled"[0] == 'd' && "removed"[0] == 'r';
  }

  lemma FieldsFromMembers(a: Generated, b: Generated)
    requires Canonical(Obj(BodyMembers(a))) == Canonical(Obj(BodyMembers(b)))
    ensures a == b
  {
    var m, n := BodyMembers(a), BodyMembers(b);
    BodyKeys(a);
    BodyKeys(b);
    BodyMember(a);
    BodyMember(b);
    hide Canonical, UniqueKeys, BodyMembers, ProvenanceMembers, Wires;
    SameText(m, n, "state", StateName(a.state), StateName(b.state));
    StateNameApart(a.state, b.state);
    SameText(m, n, "projection_generation", a.generations.projection, b.generations.projection);
    SameText(m, n, "membership_generation", a.generations.membership, b.generations.membership);
    SameText(m, n, "binding_generation", a.generations.binding, b.generations.binding);
    SameText(m, n, "content_hash", a.contentHash, b.contentHash);
    SameValueUnderKey(m, n, "provenance", Obj(ProvenanceMembers(a.provenance)), Obj(ProvenanceMembers(b.provenance)));
    ProvenanceInjective(a.provenance, b.provenance);
    SameValueUnderKey(m, n, "allowed_operations", Arr(Wires(a.allowed)), Arr(Wires(b.allowed)));
    SameItems(Wires(a.allowed), Wires(b.allowed));
    WiresInjective(a.allowed, b.allowed);
  }

  /** Two generated records have the same body exactly when they agree on every
   *  field, and a body passes the store's check for canonical bytes. */
  lemma BodyExactly(a: Generated, b: Generated)
    ensures BodyOf(a) == BodyOf(b) <==> a == b
    ensures Read(BodyText(a)).Some? && Stored(Read(BodyText(a)).value) == BodyText(a)
  {
    StoredIsCanonical(Obj(BodyMembers(a)));
    if BodyOf(a) == BodyOf(b) {
      Utf8Injective(BodyText(a), BodyText(b));
      SameStoredExactly(Obj(BodyMembers(a)), Obj(BodyMembers(b)));
      FieldsFromMembers(a, b);
    }
  }

  /** A read-back settles a projection as applied exactly when every field of the
   *  record Fleet returned is the desired one, and as a conflict otherwise. */
  lemma VerdictExactly(t: FleetLedger.Tuple, d: Document, e: Enrollment, found: Generated)
    requires t.body == BodyOf(Expected(d, e)) && t.hash == FleetLedger.Sha256(t.body)
    ensures FleetLedger.Verdict(t, BodyOf(found)) ==
            if found == Expected(d, e) then FleetLedger.Applied else FleetLedger.Conflict
  {
    BodyExactly(found, Expected(d, e));
    hide BodyOf;
  }
}
