/** Reconciling one projection with Fleet, as steps that a crash may separate.
 *
 *  A world holds the ledger, what Fleet has stored, the point the single owner
 *  has reached in `reconcile_one`, and a log of the applies that may have reached
 *  Fleet. Each durable or remote action is one event; the event carries whatever
 *  the environment decides: what Fleet holds afterwards, whether a reply arrives,
 *  what the clock shows. An event that does not fit the current phase does
 *  nothing.
 */
module FleetReconciler {
  import opened Options
  import opened FleetLedger
  import opened FleetLedgerInvariant
  import FleetClient

  datatype Identity = Identity(network: NetworkId, device: DeviceId)

  /** One request to the owner: an operation ID and the full desired tuple. */
  datatype Call = Call(operation: OperationId, tuple: Tuple)

  datatype Outcome =
    | OutcomeApplied
    | OutcomeAlreadyApplied
    | OutcomeRetryable
    | OutcomeConflict
    | OutcomeUnsupported
    | OutcomeNoFleet
    | OutcomeFailed(error: Error)

  datatype Phase =
    | Idle
    | NeedCapabilities(view: View)
    | NeedInspection(view: View, retry: bool)
    | NeedRecovery(view: View, retry: bool, inspection: Inspection)
    | NeedAttempt(view: View, first: bool)
    | NeedApply(view: View)
    | Finished(outcome: Outcome)

  datatype World = World(
    db: Db,
    fleet: map<Identity, Body>,
    call: Call,
    phase: Phase,
    sends: seq<nat>,
    sentByCall: nat)

  datatype CapabilitiesReply = Complete | Incomplete | NoCapabilities

  datatype WorldEvent =
    | Start(call: Call, now: nat)
    | CapabilitiesArrive(reply: CapabilitiesReply)
    | InspectionArrives(course: FleetClient.Course)
    | RecoverNow(now: nat)
    | AttemptNow(now: nat)
    | ApplyNow(course: FleetClient.Course, held: Option<Body>)
    | Crash
    | FleetMoves(id: Identity, held: Option<Body>)
    | DeviceRegistered(device: DeviceId, network: NetworkId, generation: Generation, status: ProjectionStatus)
    | BindingsChange(active: set<ActiveBinding>)

  function Subject(t: Tuple): Identity { Identity(t.network, t.device) }

  function Holding(fleet: map<Identity, Body>, id: Identity, held: Option<Body>): map<Identity, Body> {
    match held
    case None => fleet - {id}
    case Some(body) => fleet[id := body]
  }

  /** What an inspection reads: nothing when the answer is lost. */
  function ReadBack(w: World, course: FleetClient.Course): Inspection {
    if !FleetClient.InspectAnswered(course) then Unavailable
    else if Subject(w.call.tuple) in w.fleet then Observed(w.fleet[Subject(w.call.tuple)])
    else Missing
  }

  function StateOutcome(s: State, otherwise: Phase): Phase {
    match s
    case Applied => Finished(OutcomeAlreadyApplied)
    case Conflict => Finished(OutcomeConflict)
    case _ => otherwise
  }

  /** After the reservation: a settled projection is answered at once. */
  function Begin(w: World, call: Call, now: nat): (r: World)
    requires Linked(w.db)
    ensures Linked(r.db)
  {
    var (db, answer) := Reserve(w.db, Submission(call.operation, call.tuple), now);
    var begun := w.(db := db, call := call, sentByCall := 0);
    match answer
    case Err(e) => begun.(phase := Finished(OutcomeFailed(e)))
    case Ok(Refused) => begun.(phase := Finished(OutcomeConflict))
    case Ok(Reserved(v)) => begun.(phase := StateOutcome(v.state, NeedCapabilities(v)))
    case Ok(Replayed(v)) => begun.(phase := StateOutcome(v.state, NeedCapabilities(v)))
  }

  /** An earlier attempt is inspected before anything is sent. */
  function AfterCapabilities(w: World, view: View, reply: CapabilitiesReply): Phase {
    match reply
    case NoCapabilities => Finished(OutcomeNoFleet)
    case Incomplete => Finished(OutcomeUnsupported)
    case Complete => if view.state == Attempted then NeedInspection(view, true) else NeedAttempt(view, true)
  }

  function AfterRecovery(view: View, retry: bool, inspection: Inspection): Phase {
    match view.state
    case Applied => Finished(OutcomeApplied)
    case Conflict => Finished(OutcomeConflict)
    case _ => if inspection == Missing && retry then NeedAttempt(view, false) else Finished(OutcomeRetryable)
  }

  function AfterAttempt(view: View, first: bool): Phase {
    if view.state == Attempted then NeedApply(view)
    else if first && view.state == Applied then Finished(OutcomeAlreadyApplied)
    else if first && view.state == Conflict then Finished(OutcomeConflict)
    else Finished(OutcomeFailed(ConflictError))
  }

  /** The owner records what it read back. */
  function Recovered(w: World, now: nat): (r: World)
    requires Linked(w.db) && w.phase.NeedRecovery?
    ensures Linked(r.db)
  {
    var c := w.call;
    var (db, answer) := Recover(w.db, c.operation, c.tuple.device, c.tuple.generation,
                                w.phase.view.revision, w.phase.inspection, now);
    w.(db := db, phase := if answer.Err? then Finished(OutcomeFailed(answer.error))
                          else AfterRecovery(answer.value, w.phase.retry, w.phase.inspection))
  }

  /** The owner stores an attempt. */
  function Attempting(w: World, now: nat): (r: World)
    requires Linked(w.db) && w.phase.NeedAttempt?
    ensures Linked(r.db)
  {
    var c := w.call;
    var (db, answer) := Attempt(w.db, c.operation, c.tuple.device, c.tuple.generation, w.phase.view.revision, now);
    w.(db := db, phase := if answer.Err? then Finished(OutcomeFailed(answer.error))
                          else AfterAttempt(answer.value.view, w.phase.first))
  }

  /** The owner sends the apply. */
  function Applying(w: World, course: FleetClient.Course, held: Option<Body>): (r: World)
    requires w.phase.NeedApply?
    ensures r.db == w.db
  {
    var written := FleetClient.MayHaveWritten(course);
    var p := w.phase.view.projection;
    var attempt := if p < |w.db.records| && w.db.records[p].current.Some?
                   then w.db.records[p].current.value else 0;
    w.(fleet := if written then Holding(w.fleet, Subject(w.call.tuple), held) else w.fleet,
       sends := if written then w.sends + [attempt] else w.sends,
       sentByCall := if written then w.sentByCall + 1 else w.sentByCall,
       phase := if FleetClient.NothingSent(FleetClient.ApplyReply(course))
                then Finished(OutcomeRetryable) else NeedInspection(w.phase.view, false))
  }

  function Next(w: World, e: WorldEvent): (r: World)
    requires Linked(w.db)
    ensures Linked(r.db)
  {
    match e
    case Start(call, now) => if w.phase.Idle? || w.phase.Finished? then Begin(w, call, now) else w
    case CapabilitiesArrive(reply) =>
      if w.phase.NeedCapabilities? then w.(phase := AfterCapabilities(w, w.phase.view, reply)) else w
    case InspectionArrives(course) =>
      if w.phase.NeedInspection?
      then w.(phase := NeedRecovery(w.phase.view, w.phase.retry, ReadBack(w, course))) else w
    case RecoverNow(now) => if w.phase.NeedRecovery? then Recovered(w, now) else w
    case AttemptNow(now) => if w.phase.NeedAttempt? then Attempting(w, now) else w
    case ApplyNow(course, held) => if w.phase.NeedApply? then Applying(w, course, held) else w
    case Crash => w.(phase := Idle)
    case FleetMoves(id, held) => w.(fleet := Holding(w.fleet, id, held))
    case DeviceRegistered(d, n, g, s) => w.(db := Register(w.db, d, n, g, s))
    case BindingsChange(active) => w.(db := w.db.(active := active))
  }

  /** The ledger event behind a world event, if it has one. */
  function LedgerEvent(w: World, e: WorldEvent): Option<Event> {
    var c := w.call;
    match e
    case Start(call, now) =>
      if w.phase.Idle? || w.phase.Finished?
      then Some(ReserveEvent(Submission(call.operation, call.tuple), now)) else None
    case RecoverNow(now) =>
      if w.phase.NeedRecovery?
      then Some(RecoverEvent(c.operation, c.tuple.device, c.tuple.generation,
                             w.phase.view.revision, w.phase.inspection, now))
      else None
    case AttemptNow(now) =>
      if w.phase.NeedAttempt?
      then Some(AttemptEvent(c.operation, c.tuple.device, c.tuple.generation, w.phase.view.revision, now))
      else None
    case DeviceRegistered(d, n, g, s) => Some(RegisterEvent(d, n, g, s))
    case BindingsChange(active) => Some(BindingsEvent(active))
    case _ => None
  }

  lemma StepOnLedger(w: World, e: WorldEvent)
    requires Inv(w.db) && Linked(w.db)
    ensures Next(w, e).db ==
            if LedgerEvent(w, e).Some? then FleetLedgerInvariant.Step(w.db, LedgerEvent(w, e).value) else w.db
  {
    hide Reserve, Attempt, Recover, Register, Inv, Linked, ReadBack, Holding, AfterCapabilities, AfterRecovery, AfterAttempt;
  }

  // ------------------------------------------------------------ the invariant

  /** An authoritative `missing` read of this attempt is on record. */
  ghost predicate MissingRecorded(inspections: seq<InspectionRow>, attempt: nat) {
    exists k :: 0 <= k < |inspections| && inspections[k].attempt == attempt && inspections[k].kind == Missing
  }

  /** Only an attempt that was read back as missing is ever followed by another. */
  ghost predicate Superseded(db: Db) {
    forall i, j :: 0 <= i < j < |db.attempts| && db.attempts[i].projection == db.attempts[j].projection ==>
      MissingRecorded(db.inspections, i)
  }

  /** Each apply that may have reached Fleet has its own attempt row. */
  ghost predicate SendsOk(w: World) {
    && (forall i :: 0 <= i < |w.sends| ==> w.sends[i] < |w.db.attempts|)
    && (forall i, j :: 0 <= i < j < |w.sends| ==> w.sends[i] != w.sends[j])
    && w.sentByCall <= 1
  }

  /** The owner's view of a projection is still the store's, and it is the view of
   *  the call's own operation. */
  ghost predicate FreshView(w: World, view: View) {
    && view.projection < |w.db.records| && view == ViewOf(w.db, view.projection)
    && w.call.operation in w.db.operations
    && w.db.operations[w.call.operation].projection == view.projection
    && view.tuple == w.call.tuple
  }

  ghost predicate PhaseOk(w: World) {
    match w.phase
    case Idle => true
    case Finished(_) => true
    case NeedCapabilities(v) => FreshView(w, v) && !Terminal(v.state) && w.sentByCall == 0
    case NeedInspection(v, retry) => FreshView(w, v) && v.state == Attempted && (retry ==> w.sentByCall == 0)
    case NeedRecovery(v, retry, _) => FreshView(w, v) && v.state == Attempted && (retry ==> w.sentByCall == 0)
    case NeedAttempt(v, first) =>
      && FreshView(w, v) && w.sentByCall == 0
      && v.state == (if first then Desired else Attempted)
      && (!first ==> w.db.records[v.projection].current.Some?
                     && MissingRecorded(w.db.inspections, w.db.records[v.projection].current.value))
    case NeedApply(v) =>
      && FreshView(w, v) && v.state == Attempted && w.sentByCall == 0
      && w.db.records[v.projection].current.Some?
      && w.db.records[v.projection].current.value !in w.sends
  }

  ghost predicate Rest(w: World) { Superseded(w.db) && SendsOk(w) && PhaseOk(w) }

  ghost predicate Safe(w: World) { Inv(w.db) && Linked(w.db) && Rest(w) }

  lemma AppendedInspections(db: Db, d2: Db)
    requires Superseded(db) && d2.attempts == db.attempts && db.inspections <= d2.inspections
    ensures Superseded(d2)
  {
    forall i, j | 0 <= i < j < |d2.attempts| && d2.attempts[i].projection == d2.attempts[j].projection
      ensures MissingRecorded(d2.inspections, i)
    {
      assert MissingRecorded(db.inspections, i);
      var k :| 0 <= k < |db.inspections| && db.inspections[k].attempt == i && db.inspections[k].kind == Missing;
      assert d2.inspections[k] == db.inspections[k];
    }
  }

  /** A further attempt is only appended to one whose last was read as missing. */
  lemma AppendedAttempt(db: Db, op: OperationId, p: nat, now: nat)
    requires Superseded(db) && CurrentsOk(db.records, db.attempts) && p < |db.records|
    requires db.records[p].current.Some? ==> MissingRecorded(db.inspections, db.records[p].current.value)
    ensures Superseded(WithAttempt(db, op, p, now))
  {
    var d2 := WithAttempt(db, op, p, now);
    var n := |db.attempts|;
    assert CurrentOk(db.records[p], db.attempts, p);
    forall i, j | 0 <= i < j < |d2.attempts| && d2.attempts[i].projection == d2.attempts[j].projection
      ensures MissingRecorded(d2.inspections, i)
    {
      if j < n {
        assert db.attempts[i].projection == db.attempts[j].projection;
      } else if db.records[p].current.Some? && i < db.records[p].current.value {
        assert db.attempts[i].projection == db.attempts[db.records[p].current.value].projection;
      }
    }
  }

  lemma ReserveEffects(db: Db, sub: Submission, now: nat)
    requires Linked(db) && OperationsOk(db.records, db.operations)
    ensures var (d2, answer) := Reserve(db, sub, now);
            && d2.attempts == db.attempts && d2.inspections == db.inspections
            && (answer.Ok? && !answer.value.Refused? ==>
                  var v := answer.value.view;
                  && v.projection < |d2.records| && v == ViewOf(d2, v.projection) && v.tuple == sub.tuple
                  && sub.operation in d2.operations && d2.operations[sub.operation].projection == v.projection)
  {
  }

  lemma BeginRest(w: World, call: Call, now: nat)
    requires Rest(w) && Linked(w.db) && OperationsOk(w.db.records, w.db.operations)
    ensures Rest(Begin(w, call, now))
  {
    var sub := Submission(call.operation, call.tuple);
    ReserveEffects(w.db, sub, now);
    AppendedInspections(w.db, Reserve(w.db, sub, now).0);
  }

  lemma RecoverEffects(db: Db, op: OperationId, t: Tuple, p: nat, inspection: Inspection, now: nat)
    requires Linked(db) && op in db.operations && db.operations[op].projection == p
    requires db.records[p].tuple == t == db.operations[op].tuple && db.records[p].state == Attempted
    ensures var (d2, answer) := Recover(db, op, t.device, t.generation, db.records[p].revision, inspection, now);
            && d2.attempts == db.attempts && d2.operations == db.operations && |d2.records| == |db.records|
            && db.inspections <= d2.inspections
            && (answer.Ok? ==>
                  && answer.value == ViewOf(d2, p)
                  && (!inspection.Observed? ==>
                        && d2.records == db.records && db.records[p].current.Some?
                        && |d2.inspections| == |db.inspections| + 1
                        && d2.inspections[|db.inspections|].attempt == db.records[p].current.value
                        && d2.inspections[|db.inspections|].kind == inspection)
                  && (inspection.Observed? ==> Terminal(answer.value.state)))
  {
  }

  lemma RecoverRest(w: World, now: nat)
    requires Rest(w) && Linked(w.db) && w.phase.NeedRecovery? && OperationsOk(w.db.records, w.db.operations)
    ensures Rest(Next(w, RecoverNow(now)))
  {
    var v, inspection, c := w.phase.view, w.phase.inspection, w.call;
    RecoverEffects(w.db, c.operation, c.tuple, v.projection, inspection, now);
    var d2 := Recover(w.db, c.operation, c.tuple.device, c.tuple.generation, v.revision, inspection, now).0;
    AppendedInspections(w.db, d2);
  }

  lemma AttemptEffects(db: Db, op: OperationId, t: Tuple, p: nat, now: nat)
    requires Linked(db) && op in db.operations && db.operations[op].projection == p
    requires db.records[p].tuple == t == db.operations[op].tuple && !Terminal(db.records[p].state)
    ensures var (d2, answer) := Attempt(db, op, t.device, t.generation, db.records[p].revision, now);
            if answer.Ok? then d2 == WithAttempt(db, op, p, now) && answer == Ok(Recorded(ViewOf(d2, p)))
            else d2 == db
  {
  }

  lemma AttemptRest(w: World, now: nat)
    requires Rest(w) && Linked(w.db) && w.phase.NeedAttempt?
    requires RecordsOk(w.db.records, w.db.devices) && CurrentsOk(w.db.records, w.db.attempts)
    requires OperationsOk(w.db.records, w.db.operations)
    ensures Rest(Next(w, AttemptNow(now)))
  {
    var v, c := w.phase.view, w.call;
    assert RecordShape(w.db.records[v.projection]);
    AttemptEffects(w.db, c.operation, c.tuple, v.projection, now);
    AppendedAttempt(w.db, c.operation, v.projection, now);
    hide Attempt, RecordsOk, CurrentsOk, OperationsOk, Linked, Superseded;
  }

  lemma ApplyRest(w: World, course: FleetClient.Course, held: Option<Body>)
    requires Rest(w) && Linked(w.db) && w.phase.NeedApply?
    ensures Rest(Next(w, ApplyNow(course, held)))
  {
  }

  lemma RegisterRest(w: World, d: DeviceId, n: NetworkId, g: Generation, s: ProjectionStatus)
    requires Rest(w) && Linked(w.db)
    ensures Rest(Next(w, DeviceRegistered(d, n, g, s)))
  {
    AppendedInspections(w.db, Register(w.db, d, n, g, s));
  }

  lemma BindingsRest(w: World, active: set<ActiveBinding>)
    requires Rest(w) && Linked(w.db)
    ensures Rest(Next(w, BindingsChange(active)))
  {
    AppendedInspections(w.db, w.db.(active := active));
  }

  /** Events that leave the ledger alone. */
  lemma QuietRest(w: World, e: WorldEvent)
    requires Rest(w) && Linked(w.db)
    requires e.CapabilitiesArrive? || e.InspectionArrives? || e.Crash? || e.FleetMoves?
    ensures Rest(Next(w, e))
  {
    hide Linked, Superseded;
  }

  lemma StepRest(w: World, e: WorldEvent)
    requires Rest(w) && Linked(w.db) && OperationsOk(w.db.records, w.db.operations)
    requires RecordsOk(w.db.records, w.db.devices) && CurrentsOk(w.db.records, w.db.attempts)
    ensures Rest(Next(w, e))
  {
    hide Rest, Begin, Recovered, Attempting, Applying, OperationsOk, RecordsOk, CurrentsOk, Linked, Register;
    match e
    case Start(call, now) => if w.phase.Idle? || w.phase.Finished? { BeginRest(w, call, now); }
    case CapabilitiesArrive(reply) => QuietRest(w, e);
    case InspectionArrives(course) => QuietRest(w, e);
    case RecoverNow(now) => if w.phase.NeedRecovery? { RecoverRest(w, now); }
    case AttemptNow(now) => if w.phase.NeedAttempt? { AttemptRest(w, now); }
    case ApplyNow(course, held) => if w.phase.NeedApply? { ApplyRest(w, course, held); }
    case Crash => QuietRest(w, e);
    case FleetMoves(id, held) => QuietRest(w, e);
    case DeviceRegistered(d, n, g, s) => RegisterRest(w, d, n, g, s);
    case BindingsChange(active) => BindingsRest(w, active);
  }

  lemma StepSafe(w: World, e: WorldEvent)
    requires Safe(w)
    ensures Safe(Next(w, e))
  {
    StepOnLedger(w, e);
    if LedgerEvent(w, e).Some? { StepKeeps(w.db, LedgerEvent(w, e).value); }
    StepRest(w, e);
  }
}
