/** What of a desired projection reaches Fleet, and so the ledger: the document made of
 *  it, and the body expected back.
 */
module DesiredBody {
  import opened Options
  import opened Encoding
  import opened DesiredProjection
  import DesiredProjectionProofs
  import Document = ProjectionDocument
  import GeneratedBody
  import FleetLedger
  import FleetLedgerInvariant
  import FleetLedgerRuns
  import Sorting

  function OperationOf(e: Enrollment): Document.Operation {
    match e
    case Pending => Document.Upsert
    case Disabled => Document.Disable
    case Removed => Document.Remove
  }

  /** `generated_operation`, which no grant of a valid projection leaves. */
  function GrantOf(o: Operation): Document.Grant
    requires o != FleetHermesRun
  {
    match o
    case FleetHealth => Document.Health
    case FleetInventory => Document.Inventory
    case FleetMessage => Document.Message
  }

  function GrantsOf(all: seq<Operation>, grants: set<Operation>): seq<Document.Grant>
    requires FleetHermesRun !in grants
  {
    if all == [] then []
    else (if all[0] in grants then [GrantOf(all[0])] else []) + GrantsOf(all[1..], grants)
  }

  function GenerationsOf(p: Projection): Document.Generations {
    Document.Generations(
      Decimal(p.projectionGeneration), Decimal(p.membershipGeneration), Decimal(p.provenance.generation))
  }

  function ProvenanceOf(p: Projection): Document.Provenance {
    Document.Provenance(
      UuidText(p.networkId), UuidText(p.deviceId), Decimal(p.projectionGeneration),
      Some(Document.Authenticated(UuidText(p.provenance.bindingId), p.provenance.peerId)))
  }

  /** `projection_document`. */
  function DocumentOf(p: Projection): Document.Document
    requires Check(p) == None
  {
    Document.New(
      UuidText(p.networkId), UuidText(p.deviceId), GenerationsOf(p), OperationOf(p.enrollment),
      GrantsOf(OPERATIONS, p.grants), ProvenanceOf(p))
  }

  /** The body expected back from Fleet. */
  function BodyOf(p: Projection): FleetLedger.Body
    requires Check(p) == None
  {
    GeneratedBody.BodyOf(GeneratedBody.Expected(DocumentOf(p), p.enrollment))
  }

  /** Everything that reaches Fleet: not the display name, the membership or the roles. */
  predicate SameReach(p: Projection, q: Projection) {
    && p.networkId == q.networkId && p.deviceId == q.deviceId && p.enrollment == q.enrollment
    && p.projectionGeneration == q.projectionGeneration && p.membershipGeneration == q.membershipGeneration
    && p.provenance == q.provenance && p.grants == q.grants
  }

  // -------------------------------------------------------------- equal bodies

  function OperationFor(g: Document.Grant): Operation {
    match g
    case Health => FleetHealth
    case Inventory => FleetInventory
    case Message => FleetMessage
  }

  lemma {:induction false} GrantsListed(all: seq<Operation>, grants: set<Operation>, g: Document.Grant)
    requires FleetHermesRun !in grants
    ensures g in GrantsOf(all, grants) <==> OperationFor(g) in all && OperationFor(g) in grants
  {
    if all != [] { GrantsListed(all[1..], grants, g); }
  }

  /** Lists of the same wire grants come from equal sets. */
  lemma GrantsInjective(a: set<Operation>, b: set<Operation>)
    requires FleetHermesRun !in a && FleetHermesRun !in b
    requires forall g :: g in GrantsOf(OPERATIONS, a) <==> g in GrantsOf(OPERATIONS, b)
    ensures a == b
  {
    forall o ensures o in a <==> o in b {
      if o != FleetHermesRun {
        var g := GrantOf(o);
        assert OperationFor(g) == o;
        DesiredProjectionProofs.AllOperations(o);
        GrantsListed(OPERATIONS, a, g);
        GrantsListed(OPERATIONS, b, g);
      }
    }
  }

  /** The texts of the document give back the values they were made from. */
  lemma TextsInjective(p: Projection, q: Projection)
    requires GenerationsOf(p) == GenerationsOf(q) && ProvenanceOf(p) == ProvenanceOf(q)
    ensures p.networkId == q.networkId && p.deviceId == q.deviceId
    ensures p.projectionGeneration == q.projectionGeneration && p.membershipGeneration == q.membershipGeneration
    ensures p.provenance.generation == q.provenance.generation
    ensures p.provenance.bindingId == q.provenance.bindingId && p.provenance.peerId == q.provenance.peerId
  {
    UuidTextInjective(p.networkId, q.networkId);
    UuidTextInjective(p.deviceId, q.deviceId);
    UuidTextInjective(p.provenance.bindingId, q.provenance.bindingId);
    DecimalInjective(p.projectionGeneration, q.projectionGeneration);
    DecimalInjective(p.membershipGeneration, q.membershipGeneration);
    DecimalInjective(p.provenance.generation, q.provenance.generation);
    hide UuidText, Decimal;
  }

  lemma SameList(a: seq<Document.Grant>, b: seq<Document.Grant>)
    requires Sorting.Dedup(Sorting.Sort(a, Document.ByWire)) == Sorting.Dedup(Sorting.Sort(b, Document.ByWire))
    ensures forall g :: g in a <==> g in b
  {
    Document.WireOrder();
    Sorting.SortDedupExactly(a, b, Document.ByWire);
  }

  /** The grants of the built document are those of the projection. */
  lemma DocumentGrants(p: Projection, q: Projection)
    requires Check(p) == None && Check(q) == None && DocumentOf(p).grants == DocumentOf(q).grants
    ensures p.grants == q.grants
  {
    hide Check, UuidText, Decimal, GrantsOf, Sorting.Sort, Sorting.Dedup;
    NoExecution(p);
    NoExecution(q);
    SameList(GrantsOf(OPERATIONS, p.grants), GrantsOf(OPERATIONS, q.grants));
    GrantsInjective(p.grants, q.grants);
  }

  lemma NoExecution(p: Projection)
    requires Check(p) == None
    ensures FleetHermesRun !in p.grants
  {
  }

  /** Two valid projections have the same body exactly when they agree on all that
   *  reaches Fleet. */
  lemma BodyExactly(p: Projection, q: Projection)
    requires Check(p) == None && Check(q) == None
    ensures BodyOf(p) == BodyOf(q) <==> SameReach(p, q)
  {
    hide Check, GeneratedBody.BodyOf, DocumentOf;
    GeneratedBody.BodyExactly(
      GeneratedBody.Expected(DocumentOf(p), p.enrollment), GeneratedBody.Expected(DocumentOf(q), q.enrollment));
    if SameReach(p, q) {
      SameDocument(p, q);
    } else if BodyOf(p) == BodyOf(q) {
      ReachFromBody(p, q);
    }
  }

  lemma SameDocument(p: Projection, q: Projection)
    requires Check(p) == None && Check(q) == None && SameReach(p, q)
    ensures DocumentOf(p) == DocumentOf(q)
  {
    hide Check, UuidText, Decimal, GrantsOf, Document.New;
  }

  /** The parts of the document that the generated record repeats. */
  lemma DocumentParts(p: Projection)
    requires Check(p) == None
    ensures DocumentOf(p).generations == GenerationsOf(p) && DocumentOf(p).provenance == ProvenanceOf(p)
  {
    hide Check, UuidText, Decimal, GrantsOf, Document.Preimage, Sorting.Sort, Sorting.Dedup;
  }

  lemma ReachFromBody(p: Projection, q: Projection)
    requires Check(p) == None && Check(q) == None
    requires GeneratedBody.Expected(DocumentOf(p), p.enrollment) == GeneratedBody.Expected(DocumentOf(q), q.enrollment)
    ensures SameReach(p, q)
  {
    hide Check, DocumentOf, GenerationsOf, ProvenanceOf;
    DocumentParts(p);
    DocumentParts(q);
    TextsInjective(p, q);
    DocumentGrants(p, q);
    DesiredProjectionProofs.OwnNetworkAndDevice(p);
    DesiredProjectionProofs.OwnNetworkAndDevice(q);
  }

  /** The body forgets what the digest does not: under another display name, membership
   *  or roles the body is the same, and the digest's stream is not. */
  lemma BodyForgets(p: Projection, q: Projection)
    requires Check(p) == None && Check(q) == None
    requires SameReach(p, q)
    ensures BodyOf(p) == BodyOf(q)
    ensures Frames(Parts(p)) == Frames(Parts(q)) <==>
              p.displayName == q.displayName && p.membership == q.membership && p.roles == q.roles
  {
    BodyExactly(p, q);
    DesiredProjectionProofs.StreamExactly(p, q);
    hide Check, BodyOf, Frames, Parts;
  }

  // ----------------------------------------------------------- in the ledger

  /** How the ledger names networks, devices, bindings and peers. */
  datatype Naming = Naming(network: Uuid -> nat, device: Uuid -> nat, binding: Uuid -> nat, peer: string -> nat)

  /** What a call submits for a projection. */
  function TupleOf(names: Naming, p: Projection): FleetLedger.Tuple
    requires Check(p) == None
  {
    FleetLedger.Tuple(
      names.network(p.networkId), names.device(p.deviceId), p.projectionGeneration, BodyOf(p),
      FleetLedger.Sha256(BodyOf(p)),
      FleetLedger.Binding(names.binding(p.provenance.bindingId), names.peer(p.provenance.peerId), p.provenance.generation))
  }

  /** The tuple names the projection's own network, device, generation and binding. */
  lemma SubmittedAs(names: Naming, p: Projection)
    requires Check(p) == None
    ensures var t := TupleOf(names, p);
            && t.network == names.network(p.networkId) && t.device == names.device(p.deviceId)
            && t.generation == p.projectionGeneration && t.hash == FleetLedger.Sha256(t.body) && t.body == BodyOf(p)
            && t.binding.bindingId == names.binding(p.provenance.bindingId)
            && t.binding.peer == names.peer(p.provenance.peerId) && t.binding.generation == p.provenance.generation
  {
    hide Check, BodyOf;
  }

  /** Two projections are submitted as one tuple exactly when they agree on all that
   *  reaches Fleet. */
  lemma TupleExactly(names: Naming, p: Projection, q: Projection)
    requires Check(p) == None && Check(q) == None
    ensures TupleOf(names, p) == TupleOf(names, q) <==> SameReach(p, q)
  {
    BodyExactly(p, q);
    hide Check, BodyOf;
  }

  /** After any later run, a projection that differs in what does not reach Fleet alone
   *  is answered as a replay of the first, and any other is refused. */
  lemma ChangeIsReplayOrRefused(
    names: Naming, p: Projection, q: Projection, db: FleetLedger.Db, op: FleetLedger.OperationId, now: nat,
    es: seq<FleetLedger.Event>, later: nat)
    requires Check(p) == None && Check(q) == None
    requires FleetLedgerInvariant.Inv(db) && FleetLedger.Linked(db)
    requires var answer := FleetLedger.Reserve(db, FleetLedger.Submission(op, TupleOf(names, p)), now).1;
             answer.Ok? && !answer.value.Refused?
    requires q.projectionGeneration <= FleetLedger.I64_MAX && q.provenance.generation <= FleetLedger.I64_MAX
    ensures FleetLedgerInvariant.Inv(FleetLedger.Reserve(db, FleetLedger.Submission(op, TupleOf(names, p)), now).0)
    ensures var (d1, answer) := FleetLedger.Reserve(db, FleetLedger.Submission(op, TupleOf(names, p)), now);
            var d2 := FleetLedgerRuns.Run(d1, es);
            && FleetLedger.Linked(d2) && answer.value.view.projection < |d2.records|
            && FleetLedger.Reserve(d2, FleetLedger.Submission(op, TupleOf(names, q)), later) ==
               (d2, FleetLedger.Result.Ok(if SameReach(p, q)
                                          then FleetLedger.Replayed(FleetLedger.ViewOf(d2, answer.value.view.projection))
                                          else FleetLedger.Refused))
  {
    var sub := FleetLedger.Submission(op, TupleOf(names, p));
    FleetLedgerRuns.ReplayForEver(db, sub, now, es, later);
    TupleExactly(names, p, q);
    var d1 := FleetLedger.Reserve(db, sub, now).0;
    FleetLedgerRuns.AcceptedIsRecorded(db, sub, now);
    if !SameReach(p, q) { FleetLedgerRuns.ReuseRefused(d1, op, TupleOf(names, q), es, later); }
    hide Check, TupleOf, SameReach, FleetLedger.Reserve, FleetLedgerInvariant.Inv, FleetLedger.Linked, FleetLedgerRuns.Run;
  }
}
