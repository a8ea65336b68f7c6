/** The state store's three N7 transactions, statement by statement.
 *
 *  Each SQL statement is a method that checks the table constraints and triggers
 *  of migration 0007 and reports whether the row was accepted. A transaction that
 *  meets a refusal restores every table. From a store that meets the ledger
 *  invariant, the transactions are proved to do exactly what `Reserve`, `Attempt`
 *  and `Recover` say; so no trigger ever refuses anything those do not refuse.
 */
module FleetLedgerStore {
  import opened Options
  import opened FleetLedger
  import opened FleetLedgerInvariant

  // ------------------------------------------------------------- SQL queries

  /** COALESCE(MAX(attempt_number), 0) over a projection's attempts. */
  function MaxNumber(attempts: seq<AttemptRow>, p: nat): nat {
    if attempts == [] then 0
    else
      var before := MaxNumber(attempts[..|attempts| - 1], p);
      var last := attempts[|attempts| - 1];
      if last.projection == p && last.number > before then last.number else before
  }

  /** ORDER BY inspected_at_ms DESC, rowid DESC LIMIT 1 over one attempt's rows. */
  function Latest(inspections: seq<InspectionRow>, p: nat, a: nat): (r: Option<nat>)
    ensures r.Some? ==> r.value < |inspections|
    ensures r.Some? ==> inspections[r.value].projection == p && inspections[r.value].attempt == a
  {
    if inspections == [] then None
    else
      var last := |inspections| - 1;
      var before := Latest(inspections[..last], p, a);
      if inspections[last].projection == p && inspections[last].attempt == a
         && (before.None? || inspections[before.value].at <= inspections[last].at)
      then Some(last) else before
  }

  /** Attempt numbers are 1, 2, ... in row order, so the MAX query is a count. */
  lemma {:induction false} MaxIsCount(operations: map<OperationId, Operation>, attempts: seq<AttemptRow>, p: nat)
    requires AttemptsOk(operations, attempts)
    ensures MaxNumber(attempts, p) == CountAttempts(attempts, p)
  {
    if attempts != [] {
      var before := attempts[..|attempts| - 1];
      forall i | 0 <= i < |before|
        ensures before[i].number == CountAttempts(before[..i], before[i].projection) + 1
      {
        assert before[..i] == attempts[..i];
      }
      MaxIsCount(operations, before, p);
    }
  }

  lemma MaxSnoc(attempts: seq<AttemptRow>, row: AttemptRow)
    requires row.number > MaxNumber(attempts, row.projection)
    ensures MaxNumber(attempts + [row], row.projection) == row.number
  {
    assert (attempts + [row])[..|attempts|] == attempts;
  }

  lemma {:induction false} LatestIsLatest(inspections: seq<InspectionRow>, p: nat, a: nat)
    ensures var r := Latest(inspections, p, a);
            forall i :: 0 <= i < |inspections| && inspections[i].projection == p && inspections[i].attempt == a ==>
              r.Some? && inspections[i].at <= inspections[r.value].at
  {
    if inspections != [] {
      var before := inspections[..|inspections| - 1];
      LatestIsLatest(before, p, a);
      forall i | 0 <= i < |before| ensures before[i] == inspections[i] {}
    }
  }

  predicate SameAttempt(a: InspectionRow, b: InspectionRow) {
    a.projection == b.projection && a.attempt == b.attempt
  }

  /** The latest-inspection query returns the row inserted by the same transaction
   *  exactly when no earlier inspection of the attempt is stamped later; otherwise
   *  it returns an earlier row. */
  lemma LatestIsTheInsertedRow(inspections: seq<InspectionRow>, row: InspectionRow)
    ensures var r := Latest(inspections + [row], row.projection, row.attempt);
            && r.Some?
            && (r.value == |inspections| <==>
                  forall i :: 0 <= i < |inspections| && SameAttempt(inspections[i], row) ==>
                    inspections[i].at <= row.at)
            && (r.value != |inspections| ==> SameAttempt(inspections[r.value], row))
  {
    var all := inspections + [row];
    assert all[..|inspections|] == inspections;
    LatestIsLatest(inspections, row.projection, row.attempt);
  }

  /** The UPDATE trigger on projection records allows three transitions. */
  predicate TransitionGuard(db: Db, p: nat, n: Record)
    requires p < |db.records|
  {
    var o := db.records[p];
    && n.tuple == o.tuple
    && (FirstAttempt(db, p, o, n) || NextAttempt(db, p, o, n) || Settlement(db, p, o, n))
  }

  predicate OwnAttempt(db: Db, p: nat, n: Record) {
    && n.state == Attempted && n.revision == 2 && BindingActive(db, n.tuple)
    && n.current.Some? && n.current.value < |db.attempts|
    && db.attempts[n.current.value].projection == p
  }

  predicate FirstAttempt(db: Db, p: nat, o: Record, n: Record) {
    && o.state == Desired && o.revision == 1 && OwnAttempt(db, p, n)
    && db.attempts[n.current.value].operation in db.operations
    && db.operations[db.attempts[n.current.value].operation].projection == p
  }

  predicate NextAttempt(db: Db, p: nat, o: Record, n: Record) {
    && o.state == Attempted && o.revision == 2 && OwnAttempt(db, p, n)
    && n.current != o.current
    && db.attempts[n.current.value].number == MaxNumber(db.attempts, p)
  }

  predicate Settlement(db: Db, p: nat, o: Record, n: Record) {
    && o.state == Attempted && o.revision == 2 && Terminal(n.state) && n.revision == 3
    && n.current == o.current
    && exists i :: 0 <= i < |db.inspections| && SettlingInspection(db, p, n, db.inspections[i])
  }

  predicate SettlingInspection(db: Db, p: nat, n: Record, row: InspectionRow) {
    && row.projection == p && n.current == Some(row.attempt) && row.attempt < |db.attempts|
    && db.attempts[row.attempt].operation == row.operation
    && row.kind.Observed?
    && n.state == Verdict(n.tuple, row.kind.body)
  }

  /** The query finds a body for an attempted record exactly when the clock covers the
   *  earlier rows of the attempt, and then the one just inserted: no body was read
   *  back before. */
  lemma BodyFound(r: Record, attempts: seq<AttemptRow>, earlier: seq<InspectionRow>, row: InspectionRow)
    requires RecordShape(r) && r.state == Attempted && r.current == Some(row.attempt) && row.kind.Observed?
    requires CurrentOk(r, attempts, row.projection) && InspectionsOk(attempts, earlier)
    requires EvidenceOk(r, earlier, row.projection)
    ensures var all := earlier + [row];
            var latest := Latest(all, row.projection, row.attempt);
            && latest.Some?
            && (all[latest.value].kind.Observed? <==>
                  forall i :: 0 <= i < |earlier| && earlier[i].attempt == row.attempt ==> earlier[i].at <= row.at)
            && (all[latest.value].kind.Observed? ==> latest.value == |earlier|)
  {
    LatestIsTheInsertedRow(earlier, row);
    forall i | 0 <= i < |earlier| && earlier[i].attempt == row.attempt
      ensures earlier[i].projection == row.projection
    {
    }
    hide Latest, InspectionsOk;
  }

  function SettledRecord(r: Record, verdict: State, now: nat): Record {
    if verdict == Applied
    then r.(state := verdict, revision := 3, appliedAt := Some(now))
    else r.(state := verdict, revision := 3, conflictAt := Some(now))
  }

  /** The trigger admits a settlement on an inspection of the current attempt, and the
   *  checks of the table do from the time of the record on. */
  lemma SettlementAdmitted(db: Db, p: nat, n: nat, now: nat)
    requires p < |db.records| && RecordShape(db.records[p]) && db.records[p].state == Attempted
    requires n < |db.inspections| && db.inspections[n].projection == p && db.inspections[n].kind.Observed?
    requires db.records[p].current == Some(db.inspections[n].attempt) && db.inspections[n].attempt < |db.attempts|
    requires db.attempts[db.inspections[n].attempt].operation == db.inspections[n].operation
    ensures var r := db.records[p];
            var settled := SettledRecord(r, Verdict(r.tuple, db.inspections[n].kind.body), now);
            TransitionGuard(db, p, settled) && (RecordShape(settled) <==> r.persistedAt <= now)
  {
    var r := db.records[p];
    var settled := SettledRecord(r, Verdict(r.tuple, db.inspections[n].kind.body), now);
    hide FirstAttempt, NextAttempt;
    assert SettlingInspection(db, p, settled, db.inspections[n]);
  }

  class StateStore {
    var records: seq<Record>
    var operations: map<OperationId, Operation>
    var attempts: seq<AttemptRow>
    var inspections: seq<InspectionRow>
    var audit: seq<AuditRow>
    var generations: map<DeviceId, nat>
    var devices: map<DeviceId, Device>
    var active: set<ActiveBinding>

    function Contents(): Db
      reads this
    {
      Db(records, operations, attempts, inspections, audit, generations, devices, active)
    }

    constructor ()
      ensures Contents() == EmptyDb && Inv(Contents())
    {
      records, operations, attempts, inspections, audit := [], map[], [], [], [];
      generations, devices, active := map[], map[], {};
    }

    /** A failed transaction leaves every table as it was. */
    method Rollback(before: Db)
      modifies this
      ensures Contents() == before
    {
      records, operations, attempts := before.records, before.operations, before.attempts;
      inspections, audit := before.inspections, before.audit;
      generations, devices, active := before.generations, before.devices, before.active;
    }

    // ---------------------------------------------------------- SQL statements

    method InsertRecord(r: Record) returns (ok: bool)
      modifies this`records
      ensures ok == (RecordShape(r) && BindingActive(old(Contents()), r.tuple)
                     && FindRecord(old(records), r.tuple.device, r.tuple.generation).None?)
      ensures records == if ok then old(records) + [r] else old(records)
    {
      ok := RecordShape(r) && BindingActive(Contents(), r.tuple)
         && FindRecord(records, r.tuple.device, r.tuple.generation).None?;
      if ok { records := records + [r]; }
    }

    method InsertOperation(op: OperationId, row: Operation) returns (ok: bool)
      modifies this`operations
      ensures ok == (op !in old(operations) && row.projection < |records| && records[row.projection].tuple == row.tuple)
      ensures operations == if ok then old(operations)[op := row] else old(operations)
    {
      ok := op !in operations && row.projection < |records| && records[row.projection].tuple == row.tuple;
      if ok { operations := operations[op := row]; }
    }

    method InsertAttempt(row: AttemptRow) returns (ok: bool)
      modifies this`attempts
      ensures ok ==
              (&& row.projection < |records| && row.operation in operations
               && operations[row.operation].projection == row.projection
               && (var r := records[row.projection];
                   || (r.state == Desired && r.revision == 1 && row.number == 1 && row.expectedRevision == 1)
                   || (r.state == Attempted && r.revision == 2 && row.expectedRevision == 2
                       && row.number == MaxNumber(old(attempts), row.projection) + 1)))
      ensures attempts == if ok then old(attempts) + [row] else old(attempts)
    {
      ok := row.projection < |records| && row.operation in operations
         && operations[row.operation].projection == row.projection;
      if ok {
        var r := records[row.projection];
        ok := (r.state == Desired && r.revision == 1 && row.number == 1 && row.expectedRevision == 1)
           || (r.state == Attempted && r.revision == 2 && row.expectedRevision == 2
               && row.number == MaxNumber(attempts, row.projection) + 1);
      }
      if ok { attempts := attempts + [row]; }
    }

    method UpdateRecord(p: nat, r: Record) returns (ok: bool)
      requires p < |records|
      modifies this`records
      ensures ok == (RecordShape(r) && TransitionGuard(old(Contents()), p, r))
      ensures records == if ok then old(records)[p := r] else old(records)
    {
      ok := RecordShape(r) && TransitionGuard(Contents(), p, r);
      if ok { records := records[p := r]; }
    }

    method InsertInspection(row: InspectionRow) returns (ok: bool)
      modifies this`inspections
      ensures ok ==
              (&& row.projection < |records| && row.operation in operations
               && operations[row.operation].projection == row.projection
               && row.attempt < |attempts| && attempts[row.attempt].projection == row.projection
               && attempts[row.attempt].operation == row.operation
               && records[row.projection].state == Attempted && records[row.projection].revision == 2
               && records[row.projection].current == Some(row.attempt))
      ensures inspections == if ok then old(inspections) + [row] else old(inspections)
    {
      ok := row.projection < |records| && row.operation in operations
         && operations[row.operation].projection == row.projection
         && row.attempt < |attempts| && attempts[row.attempt].projection == row.projection
         && attempts[row.attempt].operation == row.operation
         && records[row.projection].state == Attempted && records[row.projection].revision == 2
         && records[row.projection].current == Some(row.attempt);
      if ok { inspections := inspections + [row]; }
    }

    method InsertAudit(row: AuditRow) returns (ok: bool)
      modifies this`audit
      ensures ok ==
              (&& row.projection < |records| && row.operation in operations
               && operations[row.operation].projection == row.projection
               && records[row.projection].tuple.generation == row.generation
               && row.kind == records[row.projection].state && row.revision == records[row.projection].revision)
      ensures audit == if ok then old(audit) + [row] else old(audit)
    {
      ok := row.projection < |records| && row.operation in operations
         && operations[row.operation].projection == row.projection
         && records[row.projection].tuple.generation == row.generation
         && row.kind == records[row.projection].state && row.revision == records[row.projection].revision;
      if ok { audit := audit + [row]; }
    }

    /** `n7_set_device_status`: the JSON copy decides, then both are written. */
    method SetDeviceStatus(d: DeviceId, next: ProjectionStatus) returns (ok: bool)
      requires d in devices
      modifies this`devices
      ensures ok == MaySet(old(devices)[d].jsonStatus, next)
      ensures devices == if ok then old(devices)[d := old(devices)[d].(status := next, jsonStatus := next)]
                         else old(devices)
    {
      var stored := devices[d];
      ok := true;
      if stored.jsonStatus != next { ok := StatusTransition(stored.jsonStatus, next); }
      if ok { devices := devices[d := stored.(status := next, jsonStatus := next)]; }
    }

    /** `n7_advance_fleet_projection_generation_tx`: three fenced updates. */
    method AdvanceGeneration(d: DeviceId, expected: Generation) returns (r: Result<()>)
      requires d in devices && d in generations
      requires generations[d] == devices[d].generation == devices[d].jsonGeneration == expected
      modifies this`devices, this`generations
      ensures r == if expected < I64_MAX then Ok(()) else Err(SqlError)
      ensures r.Ok? ==>
                && generations == old(generations)[d := expected + 1]
                && devices == old(devices)[d := old(devices)[d].(generation := expected + 1, jsonGeneration := expected + 1)]
    {
      if expected == 0xffff_ffff_ffff_ffff { return Err(SqlError); }
      var next: nat := expected + 1;
      var device := devices[d];
      if device.jsonGeneration != expected || next <= device.jsonGeneration { return Err(ConflictError); }
      device := device.(jsonGeneration := next);
      if next > I64_MAX { return Err(SqlError); }
      var stale := StaleGeneration(expected, generations[d]);
      if generations[d] != expected { return Err(stale); }
      generations := generations[d := next];
      stale := StaleGeneration(expected, devices[d].generation);
      if devices[d].generation != expected { return Err(stale); }
      devices := devices[d := device.(generation := next)];
      return Ok(());
    }

    // ------------------------------------------------------------ transactions

    method ReserveN7Projection(sub: Submission, now: nat) returns (answer: Result<Reservation>)
      requires Inv(Contents())
      modifies this
      ensures Inv(Contents())
      ensures Linked(old(Contents())) && (Contents(), answer) == Reserve(old(Contents()), sub, now)
    {
      var before := Contents();
      InvLinked(before);
      ReserveKeeps(before, sub, now);
      var t := sub.tuple;
      if t.generation > I64_MAX || t.binding.generation > I64_MAX { return Err(SqlError); }
      if sub.operation in operations && operations[sub.operation].tuple == t {
        return Ok(Replayed(ViewOf(before, operations[sub.operation].projection)));
      }
      if sub.operation in operations { return Ok(Refused); }
      var found := FindRecord(records, t.device, t.generation);
      if found.Some? {
        if records[found.value].tuple != t { return Ok(Refused); }
        var kept := InsertOperation(sub.operation, Operation(found.value, t, now));
        return Ok(Replayed(ViewOf(before, found.value)));
      }
      if t.device !in generations { return Err(NotFound); }
      if generations[t.device] != t.generation {
        return Err(StaleGeneration(t.generation, generations[t.device]));
      }
      if t.device !in devices { return Err(SqlError); }
      if devices[t.device].network != t.network || !BindingActive(before, t) { return Ok(Refused); }
      answer := WriteReservation(sub, now);
      if answer.Err? { Rollback(before); }
    }

    /** The writes of a reservation, once every check has passed. */
    method WriteReservation(sub: Submission, now: nat) returns (answer: Result<Reservation>)
      requires CountersOk(generations, devices)
      requires sub.operation !in operations && sub.tuple.device in devices
      requires FindRecord(records, sub.tuple.device, sub.tuple.generation).None?
      requires BindingActive(Contents(), sub.tuple) && generations[sub.tuple.device] == sub.tuple.generation
      modifies this
      ensures answer ==
              if !MaySet(old(devices)[sub.tuple.device].jsonStatus, Pending) then Err(ConflictError)
              else if sub.tuple.generation == I64_MAX then Err(SqlError)
              else Ok(Reserved(View(|old(records)|, sub.tuple, 1, Desired)))
      ensures answer.Ok? ==> Contents() == WithReservation(old(Contents()), sub, now)
    {
      var t := sub.tuple;
      var p := |records|;
      assert t.device in generations
             && devices[t.device].generation == devices[t.device].jsonGeneration == t.generation;
      hide CountersOk, FindRecord, BindingActive, MaySet;
      var failed := WriteReservationRows(sub, now);
      if failed.Some? { return Err(failed.value); }
      var advanced := AdvanceGeneration(t.device, t.generation);
      if advanced.Err? { return Err(advanced.error); }
      answer := Ok(Reserved(ViewOf(Contents(), p)));
    }

    /** The record, the operation, the device's status and the audit row. */
    method WriteReservationRows(sub: Submission, now: nat) returns (failed: Option<Error>)
      requires sub.operation !in operations && sub.tuple.device in devices
      requires FindRecord(records, sub.tuple.device, sub.tuple.generation).None?
      requires BindingActive(Contents(), sub.tuple)
      modifies this`records, this`operations, this`devices, this`audit
      ensures failed == if MaySet(old(devices)[sub.tuple.device].jsonStatus, Pending) then None else Some(ConflictError)
      ensures failed.None? ==>
                && records == old(records) + [FreshRecord(sub.tuple, now)]
                && operations == old(operations)[sub.operation := Operation(|old(records)|, sub.tuple, now)]
                && devices == old(devices)[sub.tuple.device := old(devices)[sub.tuple.device].(
                                             status := Pending, jsonStatus := Pending)]
                && audit == old(audit) + [AuditRow(|old(records)|, sub.operation, Desired, sub.tuple.generation, 1, now)]
    {
      var t := sub.tuple;
      var p := |records|;
      assert RecordShape(FreshRecord(t, now));
      hide FindRecord, BindingActive, MaySet, RecordShape;
      var ok := InsertRecord(FreshRecord(t, now));
      if !ok { return Some(SqlError); }
      ok := InsertOperation(sub.operation, Operation(p, t, now));
      if !ok { return Some(SqlError); }
      ok := SetDeviceStatus(t.device, Pending);
      if !ok { return Some(ConflictError); }
      ok := InsertAudit(AuditRow(p, sub.operation, Desired, t.generation, 1, now));
      if !ok { return Some(SqlError); }
      return None;
    }

    method RecordDispatchAttempt(
      op: OperationId, device: DeviceId, generation: Generation, expected: nat, now: nat)
      returns (answer: Result<AttemptOutcome>)
      requires Inv(Contents())
      modifies this
      ensures Inv(Contents())
      ensures Linked(old(Contents()))
              && (Contents(), answer) == Attempt(old(Contents()), op, device, generation, expected, now)
    {
      var before := Contents();
      InvLinked(before);
      AttemptKeeps(before, op, device, generation, expected, now);
      var named := OperationProjection(before, op, device, generation);
      if named.Err? { return Err(named.error); }
      var p := named.value;
      var r := records[p];
      if r.revision != expected { return Err(StaleGeneration(expected, r.revision)); }
      assert RecordShape(r) && CurrentOk(r, attempts, p);
      if Terminal(r.state) { return Ok(AlreadySettled(ViewOf(before, p))); }
      if !BindingActive(before, r.tuple) { return Err(ConflictError); }
      answer := WriteAttempt(op, p, now);
      if answer.Err? { Rollback(before); }
    }

    /** The writes of an attempt: its row, the record's new current attempt, the audit row. */
    method WriteAttempt(op: OperationId, p: nat, now: nat) returns (answer: Result<AttemptOutcome>)
      requires p < |records| && RecordShape(records[p]) && !Terminal(records[p].state)
      requires CurrentOk(records[p], attempts, p) && AttemptsOk(operations, attempts)
      requires op in operations && operations[op].projection == p && BindingActive(Contents(), records[p].tuple)
      modifies this
      ensures answer ==
              if old(records)[p].state == Desired && now < old(records)[p].persistedAt then Err(SqlError)
              else Ok(Recorded(View(p, old(records)[p].tuple, 2, Attempted)))
      ensures answer.Ok? ==> Contents() == WithAttempt(old(Contents()), op, p, now)
    {
      var r := records[p];
      MaxIsCount(operations, attempts, p);
      if r.state == Desired {
        CountZero(attempts, p);
        answer := AppendAttempt(op, p, 1, Some(now), now);
      } else {
        answer := AppendAttempt(op, p, MaxNumber(attempts, p) + 1, r.attemptedAt, now);
      }
      if answer.Err? { return; }
      var ok := InsertAudit(AuditRow(p, op, Attempted, r.tuple.generation, 2, now));
      if !ok { return Err(SqlError); }
    }

    method AppendAttempt(op: OperationId, p: nat, number: nat, attemptedAt: Option<nat>, now: nat)
      returns (answer: Result<AttemptOutcome>)
      requires p < |records| && RecordShape(records[p]) && !Terminal(records[p].state)
      requires CurrentOk(records[p], attempts, p)
      requires op in operations && operations[op].projection == p && BindingActive(Contents(), records[p].tuple)
      requires number == MaxNumber(attempts, p) + 1 && (records[p].state == Desired ==> number == 1)
      requires attemptedAt == if records[p].state == Desired then Some(now) else records[p].attemptedAt
      modifies this`attempts, this`records
      ensures answer ==
              if old(records)[p].state == Desired && now < old(records)[p].persistedAt then Err(SqlError)
              else Ok(Recorded(View(p, old(records)[p].tuple, 2, Attempted)))
      ensures answer.Ok? ==>
                && attempts == old(attempts) + [AttemptRow(p, op, number, old(records)[p].revision, now)]
                && records == old(records)[p := old(records)[p].(
                     state := Attempted, revision := 2, current := Some(|old(attempts)|), attemptedAt := attemptedAt)]
    {
      var r := records[p];
      var a := |attempts|;
      assert r.current.Some? ==> r.current.value < a;
      hide MaxNumber, Settlement, CurrentOk;
      var ok := InsertAttempt(AttemptRow(p, op, number, r.revision, now));
      if !ok { return Err(StaleGeneration(r.revision, r.revision)); }
      MaxSnoc(old(attempts), attempts[a]);
      var moved := r.(state := Attempted, revision := 2, current := Some(a), attemptedAt := attemptedAt);
      assert OwnAttempt(Contents(), p, moved);
      ok := UpdateRecord(p, moved);
      if !ok { return Err(SqlError); }
      answer := Ok(Recorded(ViewOf(Contents(), p)));
    }

    method RecoverFromInspection(
      op: OperationId, device: DeviceId, generation: Generation, expected: nat,
      inspection: Inspection, now: nat)
      returns (answer: Result<View>)
      requires Inv(Contents())
      modifies this
      ensures Inv(Contents())
      ensures Linked(old(Contents()))
              && (Contents(), answer) == Recover(old(Contents()), op, device, generation, expected, inspection, now)
    {
      var before := Contents();
      InvLinked(before);
      RecoverKeeps(before, op, device, generation, expected, inspection, now);
      var named := OperationProjection(before, op, device, generation);
      if named.Err? { return Err(named.error); }
      var p := named.value;
      var r := records[p];
      if r.revision != expected { return Err(StaleGeneration(expected, r.revision)); }
      assert RecordShape(r) && CurrentOk(r, attempts, p);
      if Terminal(r.state) { return Ok(ViewOf(before, p)); }
      if r.state != Attempted { return Err(ConflictError); }
      assert EvidenceOk(r, inspections, p);
      answer := WriteInspection(op, p, inspection, now);
      if answer.Err? { Rollback(before); }
    }

    /** The inspection row and, when a body was read back, the settlement. */
    method WriteInspection(op: OperationId, p: nat, inspection: Inspection, now: nat) returns (answer: Result<View>)
      requires p < |records| && RecordShape(records[p]) && records[p].state == Attempted
      requires CurrentOk(records[p], attempts, p) && InspectionsOk(attempts, inspections)
      requires EvidenceOk(records[p], inspections, p) && AttemptsOk(operations, attempts)
      requires op in operations && operations[op].projection == p && records[p].tuple.device in devices
      modifies this
      ensures answer == Inspect(old(Contents()), op, p, old(records)[p].current.value, inspection, now).1
      ensures answer.Ok? ==>
                Contents() == Inspect(old(Contents()), op, p, old(records)[p].current.value, inspection, now).0
    {
      var r := records[p];
      var a := r.current.value;
      var before := inspections;
      var ok := InsertInspection(InspectionRow(p, op, a, inspection, now));
      if !ok { return Err(SqlError); }
      if !inspection.Observed? { return Ok(ViewOf(Contents(), p)); }
      answer := WriteSettlement(op, p, inspection.body, now, before);
    }

    /** Settles a projection on the latest inspection of its current attempt. */
    method WriteSettlement(op: OperationId, p: nat, body: Body, now: nat, ghost earlier: seq<InspectionRow>)
      returns (answer: Result<View>)
      requires p < |records| && RecordShape(records[p]) && records[p].state == Attempted
      requires CurrentOk(records[p], attempts, p) && InspectionsOk(attempts, earlier)
      requires EvidenceOk(records[p], earlier, p)
      requires op in operations && operations[op].projection == p
      requires attempts[records[p].current.value].operation == op
      requires records[p].tuple.device in devices
      requires inspections == earlier + [InspectionRow(p, op, records[p].current.value, Observed(body), now)]
      modifies this
      ensures var r := old(records)[p];
              answer ==
              if !(forall i :: 0 <= i < |earlier| && earlier[i].attempt == r.current.value ==> earlier[i].at <= now)
                 || now < r.persistedAt then Err(SqlError)
              else if !MaySet(old(devices)[r.tuple.device].jsonStatus, StatusFor(Verdict(r.tuple, body)))
              then Err(ConflictError)
              else Ok(View(p, r.tuple, 3, Verdict(r.tuple, body)))
      ensures answer.Ok? ==>
                Contents() == WithSettlement(old(Contents()), op, p, Verdict(old(records)[p].tuple, body), now)
    {
      var r := records[p];
      var a := r.current.value;
      var n := |inspections| - 1;
      BodyFound(r, attempts, earlier, inspections[n]);
      assert a < |attempts|;
      SettlementAdmitted(Contents(), p, n, now);
      hide Latest, InspectionsOk, EvidenceOk, CurrentOk, RecordShape, TransitionGuard, StatusFor, MaySet, WithSettlement;
      var latest := Latest(inspections, p, a);
      // A row that read nothing back holds NULL, which is not a body.
      if latest.None? || !inspections[latest.value].kind.Observed? { return Err(SqlError); }
      var observed := inspections[latest.value].kind.body;
      var verdict := if Sha256(observed) == r.tuple.hash && observed == r.tuple.body then Applied else Conflict;
      answer := WriteVerdict(op, p, verdict, now);
    }

    /** The rows of a settlement, once its verdict is known. */
    method WriteVerdict(op: OperationId, p: nat, verdict: State, now: nat) returns (answer: Result<View>)
      requires p < |records| && records[p].tuple.device in devices
      requires op in operations && operations[op].projection == p
      requires TransitionGuard(Contents(), p, SettledRecord(records[p], verdict, now))
      requires RecordShape(SettledRecord(records[p], verdict, now)) <==> records[p].persistedAt <= now
      modifies this
      ensures var r := old(records)[p];
              answer ==
              if now < r.persistedAt then Err(SqlError)
              else if !MaySet(old(devices)[r.tuple.device].jsonStatus, StatusFor(verdict)) then Err(ConflictError)
              else Ok(View(p, r.tuple, 3, verdict))
      ensures answer.Ok? ==> Contents() == WithSettlement(old(Contents()), op, p, verdict, now)
    {
      var r := records[p];
      hide RecordShape, TransitionGuard, StatusFor, MaySet;
      var ok := UpdateRecord(p, SettledRecord(r, verdict, now));
      if !ok { return Err(SqlError); }
      ok := SetDeviceStatus(r.tuple.device, StatusFor(verdict));
      if !ok { return Err(ConflictError); }
      ok := InsertAudit(AuditRow(p, op, verdict, r.tuple.generation, 3, now));
      if !ok { return Err(SqlError); }
      answer := Ok(ViewOf(Contents(), p));
    }
  }
}
