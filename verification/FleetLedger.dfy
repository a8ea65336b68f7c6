/** The durable N7 ledger of Fleet projections, as values.
 *
 *  A `Db` holds the tables that one transaction of the state store reads or
 *  writes. `Reserve`, `Attempt` and `Recover` say, all at once, what each of the
 *  three transactions leaves behind and what it answers. The class in
 *  FleetLedgerStore.dfy performs them row by row, with the SQL guards, and is
 *  proved to agree with these functions.
 *
 *  A record or an attempt is named by its row position. A failed transaction
 *  answers `Err` and leaves the store as it was.
 */
module FleetLedger {
  import opened Options
  import Encoding

  /** Canonical JSON object bytes; the shortest is `{}`. */
  type Body = b: seq<Encoding.byte> | |b| > 1 witness [123, 125]

  type OperationId = nat
  type NetworkId = nat
  type DeviceId = nat

  /** SHA-256 is left uninterpreted. */
  const Sha256: Body -> string

  /** The largest integer a SQLite column stores; a larger parameter is refused. */
  const I64_MAX: nat := 0x7fff_ffff_ffff_ffff

  type Generation = g: nat | 1 <= g <= 0xffff_ffff_ffff_ffff witness 1

  datatype Binding = Binding(bindingId: nat, peer: nat, generation: Generation)

  /** The full tuple of a submission: everything but its operation. */
  datatype Tuple = Tuple(
    network: NetworkId,
    device: DeviceId,
    generation: Generation,
    body: Body,
    hash: string,
    binding: Binding)

  datatype Submission = Submission(operation: OperationId, tuple: Tuple)

  datatype State = Desired | Attempted | Applied | Conflict

  predicate Terminal(s: State) { s == Applied || s == Conflict }

  datatype Record = Record(
    tuple: Tuple,
    state: State,
    revision: nat,
    current: Option<nat>,
    persistedAt: nat,
    attemptedAt: Option<nat>,
    appliedAt: Option<nat>,
    conflictAt: Option<nat>)

  datatype Operation = Operation(projection: nat, tuple: Tuple, recordedAt: nat)

  datatype AttemptRow = AttemptRow(
    projection: nat, operation: OperationId, number: nat, expectedRevision: nat, at: nat)

  datatype Inspection = Observed(body: Body) | Missing | Unavailable

  datatype InspectionRow = InspectionRow(
    projection: nat, operation: OperationId, attempt: nat, kind: Inspection, at: nat)

  datatype AuditRow = AuditRow(
    projection: nat, operation: OperationId, kind: State, generation: Generation, revision: nat, at: nat)

  /** Status values a device's Fleet projection goes through. */
  datatype ProjectionStatus =
    NotRequested | Pending | StatusApplied | FailedRetryable | StatusConflict | Revoked

  /** The transition table of `ProjectionStatus`. */
  predicate StatusTransition(a: ProjectionStatus, b: ProjectionStatus) {
    match a
    case NotRequested => b == Pending || b == Revoked
    case Pending => b == StatusApplied || b == FailedRetryable || b == StatusConflict || b == Revoked
    case FailedRetryable => b == Pending || b == Revoked
    case StatusConflict => b == Pending || b == Revoked
    case StatusApplied => b == Pending || b == Revoked
    case Revoked => false
  }

  /** Setting a status writes nothing new when it is already held. */
  predicate MaySet(a: ProjectionStatus, b: ProjectionStatus) { a == b || StatusTransition(a, b) }

  /** A device row: its columns, and the two fields of its JSON copy that N7 touches. */
  datatype Device = Device(
    network: NetworkId,
    generation: nat,
    status: ProjectionStatus,
    jsonGeneration: nat,
    jsonStatus: ProjectionStatus)

  datatype ActiveBinding = ActiveBinding(network: NetworkId, device: DeviceId, binding: Binding)

  datatype Db = Db(
    records: seq<Record>,
    operations: map<OperationId, Operation>,
    attempts: seq<AttemptRow>,
    inspections: seq<InspectionRow>,
    audit: seq<AuditRow>,
    generations: map<DeviceId, nat>,
    devices: map<DeviceId, Device>,
    active: set<ActiveBinding>)

  datatype View = View(projection: nat, tuple: Tuple, revision: nat, state: State)

  datatype Error =
    | NotFound
    | StaleGeneration(expected: nat, actual: nat)
    | ConflictError
    | SqlError

  datatype Result<+T> = Ok(value: T) | Err(error: Error)

  datatype Reservation = Reserved(view: View) | Replayed(view: View) | Refused

  datatype AttemptOutcome = Recorded(view: View) | AlreadySettled(view: View)

  /** The foreign keys the three transactions follow. */
  ghost predicate Linked(db: Db) {
    && (forall op :: op in db.operations ==> db.operations[op].projection < |db.records|)
    && (forall p :: 0 <= p < |db.records| ==>
          && db.records[p].tuple.device in db.devices
          && (db.records[p].current.Some? ==> db.records[p].current.value < |db.attempts|))
  }

  // ---------------------------------------------------------------- queries

  function ViewOf(db: Db, p: nat): View
    requires p < |db.records|
  {
    var r := db.records[p];
    View(p, r.tuple, r.revision, r.state)
  }

  predicate Keyed(r: Record, device: DeviceId, generation: nat) {
    r.tuple.device == device && r.tuple.generation == generation
  }

  /** The record of a device and generation; the pair is a unique key. */
  function FindRecord(records: seq<Record>, device: DeviceId, generation: Generation): (r: Option<nat>)
    ensures r.Some? ==> r.value < |records| && Keyed(records[r.value], device, generation)
    ensures r.None? ==> forall p :: 0 <= p < |records| ==> !Keyed(records[p], device, generation)
  {
    if records == [] then None
    else
      var last := |records| - 1;
      if Keyed(records[last], device, generation)
      then Some(last)
      else FindRecord(records[..last], device, generation)
  }

  predicate BindingActive(db: Db, t: Tuple) {
    ActiveBinding(t.network, t.device, t.binding) in db.active
  }

  /** How many attempts a projection has. */
  function CountAttempts(attempts: seq<AttemptRow>, p: nat): nat {
    if attempts == [] then 0
    else CountAttempts(attempts[..|attempts| - 1], p) +
         (if attempts[|attempts| - 1].projection == p then 1 else 0)
  }

  /** No inspection of this attempt is stamped after `now`. */
  predicate ClockCovers(db: Db, attempt: nat, now: nat) {
    forall i :: 0 <= i < |db.inspections| && db.inspections[i].attempt == attempt ==>
      db.inspections[i].at <= now
  }

  function StatusFor(s: State): ProjectionStatus {
    match s
    case Desired => Pending
    case Attempted => Pending
    case Applied => StatusApplied
    case Conflict => StatusConflict
  }

  /** What an observed body settles a projection to. The hash of the body read
   *  back and the body itself are both compared. */
  function Verdict(t: Tuple, body: Body): State {
    if Sha256(body) == t.hash && body == t.body then Applied else Conflict
  }

  // ------------------------------------------------------------ transactions

  function WithOperation(db: Db, sub: Submission, p: nat, now: nat): Db {
    db.(operations := db.operations[sub.operation := Operation(p, sub.tuple, now)])
  }

  function FreshRecord(t: Tuple, now: nat): Record {
    Record(t, Desired, 1, None, now, None, None, None)
  }

  /** A reservation's new rows: record, operation, audit row, device status and
   *  the three copies of the generation counter. */
  function WithReservation(db: Db, sub: Submission, now: nat): Db
    requires sub.tuple.device in db.devices
  {
    var t := sub.tuple;
    var p := |db.records|;
    db.(records := db.records + [FreshRecord(t, now)],
        operations := db.operations[sub.operation := Operation(p, t, now)],
        audit := db.audit + [AuditRow(p, sub.operation, Desired, t.generation, 1, now)],
        generations := db.generations[t.device := t.generation + 1],
        devices := db.devices[t.device := db.devices[t.device].(
          generation := t.generation + 1, jsonGeneration := t.generation + 1,
          status := Pending, jsonStatus := Pending)])
  }

  function Reserve(db: Db, sub: Submission, now: nat): (Db, Result<Reservation>)
    requires Linked(db)
  {
    var t := sub.tuple;
    if t.generation > I64_MAX || t.binding.generation > I64_MAX then (db, Err(SqlError))
    else if sub.operation in db.operations then
      if db.operations[sub.operation].tuple == t
      then (db, Ok(Replayed(ViewOf(db, db.operations[sub.operation].projection))))
      else (db, Ok(Refused))
    else
      match FindRecord(db.records, t.device, t.generation)
      case Some(p) =>
        if db.records[p].tuple != t then (db, Ok(Refused))
        else (WithOperation(db, sub, p, now), Ok(Replayed(ViewOf(db, p))))
      case None =>
        if t.device !in db.generations then (db, Err(NotFound))
        else if db.generations[t.device] != t.generation
        then (db, Err(StaleGeneration(t.generation, db.generations[t.device])))
        else if t.device !in db.devices then (db, Err(SqlError))
        else if db.devices[t.device].network != t.network || !BindingActive(db, t)
        then (db, Ok(Refused))
        else if !MaySet(db.devices[t.device].jsonStatus, Pending) then (db, Err(ConflictError))
        else if t.generation == I64_MAX then (db, Err(SqlError))
        else
          var p := |db.records|;
          (WithReservation(db, sub, now), Ok(Reserved(View(p, t, 1, Desired))))
  }

  /** The projection an operation names, if its device and generation match. */
  function OperationProjection(
    db: Db, op: OperationId, device: DeviceId, generation: Generation): (r: Result<nat>)
    ensures r.Ok? <==>
            (op in db.operations &&
             db.operations[op].tuple.device == device &&
             db.operations[op].tuple.generation == generation)
    ensures r.Ok? ==> r.value == db.operations[op].projection
  {
    if op !in db.operations then Err(NotFound)
    else if db.operations[op].tuple.device != device || db.operations[op].tuple.generation != generation
    then Err(ConflictError)
    else Ok(db.operations[op].projection)
  }

  /** The next attempt of a projection becomes its current one. */
  function WithAttempt(db: Db, op: OperationId, p: nat, now: nat): Db
    requires p < |db.records|
  {
    var r := db.records[p];
    var a := |db.attempts|;
    db.(attempts := db.attempts +
          [AttemptRow(p, op, CountAttempts(db.attempts, p) + 1, r.revision, now)],
        records := db.records[p := r.(
          state := Attempted, revision := 2, current := Some(a),
          attemptedAt := if r.state == Desired then Some(now) else r.attemptedAt)],
        audit := db.audit + [AuditRow(p, op, Attempted, r.tuple.generation, 2, now)])
  }

  function Attempt(
    db: Db, op: OperationId, device: DeviceId, generation: Generation, expected: nat, now: nat)
    : (Db, Result<AttemptOutcome>)
    requires Linked(db)
  {
    var named := OperationProjection(db, op, device, generation);
    if named.Err? then (db, Err(named.error))
    else
      var p := named.value;
      var r := db.records[p];
      if r.revision != expected then (db, Err(StaleGeneration(expected, r.revision)))
      else if Terminal(r.state) then (db, Ok(AlreadySettled(ViewOf(db, p))))
      else if !BindingActive(db, r.tuple) then (db, Err(ConflictError))
      else if r.state == Desired && now < r.persistedAt then (db, Err(SqlError))
      else
        (WithAttempt(db, op, p, now), Ok(Recorded(View(p, r.tuple, 2, Attempted))))
  }

  function WithInspection(db: Db, op: OperationId, p: nat, a: nat, kind: Inspection, now: nat): Db {
    db.(inspections := db.inspections + [InspectionRow(p, op, a, kind, now)])
  }

  /** A projection settles: its record, its device's status and one audit row. */
  function WithSettlement(db: Db, op: OperationId, p: nat, verdict: State, now: nat): Db
    requires p < |db.records| && db.records[p].tuple.device in db.devices
  {
    var r := db.records[p];
    var d := r.tuple.device;
    db.(records := db.records[p := r.(
          state := verdict, revision := 3,
          appliedAt := if verdict == Applied then Some(now) else r.appliedAt,
          conflictAt := if verdict == Applied then r.conflictAt else Some(now))],
        devices := db.devices[d := db.devices[d].(
          status := StatusFor(verdict), jsonStatus := StatusFor(verdict))],
        audit := db.audit + [AuditRow(p, op, verdict, r.tuple.generation, 3, now)])
  }

  /** One inspection of the current attempt `a` of an attempted projection. Only
   *  the operation that made the attempt may inspect it. */
  function Inspect(db: Db, op: OperationId, p: nat, a: nat, inspection: Inspection, now: nat)
    : (Db, Result<View>)
    requires p < |db.records| && a < |db.attempts| && db.records[p].tuple.device in db.devices
  {
    var r := db.records[p];
    if db.attempts[a].operation != op then (db, Err(SqlError))
    else
      var inspected := WithInspection(db, op, p, a, inspection, now);
      match inspection
      case Missing => (inspected, Ok(ViewOf(db, p)))
      case Unavailable => (inspected, Ok(ViewOf(db, p)))
      case Observed(body) =>
        var verdict := Verdict(r.tuple, body);
        if !ClockCovers(db, a, now) || now < r.persistedAt then (db, Err(SqlError))
        else if !MaySet(db.devices[r.tuple.device].jsonStatus, StatusFor(verdict))
        then (db, Err(ConflictError))
        else (WithSettlement(inspected, op, p, verdict, now), Ok(View(p, r.tuple, 3, verdict)))
  }

  function Recover(
    db: Db, op: OperationId, device: DeviceId, generation: Generation, expected: nat,
    inspection: Inspection, now: nat)
    : (Db, Result<View>)
    requires Linked(db)
  {
    var named := OperationProjection(db, op, device, generation);
    if named.Err? then (db, Err(named.error))
    else
      var p := named.value;
      var r := db.records[p];
      if r.revision != expected then (db, Err(StaleGeneration(expected, r.revision)))
      else if Terminal(r.state) then (db, Ok(ViewOf(db, p)))
      else if r.state != Attempted || r.current.None? then (db, Err(ConflictError))
      else Inspect(db, op, p, r.current.value, inspection, now)
  }

  // -------------------------------------------------------------------- runs

  const EmptyDb := Db([], map[], [], [], [], map[], map[], {})

  /** What can happen to the ledger: the three transactions with any arguments,
   *  a device appearing, and N6 replacing the set of active bindings. */
  datatype Event =
    | ReserveEvent(submission: Submission, now: nat)
    | AttemptEvent(operation: OperationId, device: DeviceId, generation: Generation, expected: nat, now: nat)
    | RecoverEvent(
        operation: OperationId, device: DeviceId, generation: Generation, expected: nat,
        inspection: Inspection, now: nat)
    | RegisterEvent(device: DeviceId, network: NetworkId, generation: Generation, status: ProjectionStatus)
    | BindingsEvent(active: set<ActiveBinding>)

  /** A new device stores one counter three times. Its row is refused when the
   *  device exists or the counter does not fit a column. */
  function Register(db: Db, d: DeviceId, n: NetworkId, g: Generation, s: ProjectionStatus): Db {
    if d in db.devices || d in db.generations || g > I64_MAX then db
    else db.(generations := db.generations[d := g], devices := db.devices[d := Device(n, g, s, g, s)])
  }
}
