/** Which answer each of the three ledger transactions gives, and to whom. */
module FleetLedgerAnswers {
  import opened Options
  import opened FleetLedger
  import opened FleetLedgerInvariant

  /** Both generations of a tuple fit a column. */
  predicate Fits(t: Tuple) { t.generation <= 0x7fff_ffff_ffff_ffff && t.binding.generation <= 0x7fff_ffff_ffff_ffff }

  /** Some record has the tuple's device and generation. */
  ghost predicate KeyTaken(db: Db, t: Tuple) {
    exists p :: 0 <= p < |db.records| && SameKey(db.records[p].tuple, t)
  }

  predicate SameKey(a: Tuple, b: Tuple) { a.device == b.device && a.generation == b.generation }

  /** That record holds this very tuple. */
  ghost predicate TupleHeld(db: Db, t: Tuple) {
    exists p :: 0 <= p < |db.records| && db.records[p].tuple == t
  }

  /** A submission under a new operation for a new device and generation. */
  ghost predicate NewKey(db: Db, sub: Submission) {
    Fits(sub.tuple) && sub.operation !in db.operations && !KeyTaken(db, sub.tuple)
  }

  /** ... whose generation is the device's counter. */
  ghost predicate AtCounter(db: Db, sub: Submission) {
    && NewKey(db, sub) && sub.tuple.device in db.generations
    && db.generations[sub.tuple.device] == sub.tuple.generation
  }

  /** The device is in the tuple's network and the tuple's binding is an active one. */
  predicate Bound(db: Db, t: Tuple) {
    && t.device in db.devices && db.devices[t.device].network == t.network
    && ActiveBinding(t.network, t.device, t.binding) in db.active
  }

  /** A new key is unknown to the search, and a known one found where it is. */
  lemma SearchFinds(db: Db, t: Tuple)
    requires UniqueKeys(db.records)
    ensures var key := FindRecord(db.records, t.device, t.generation);
            && (key.Some? <==> KeyTaken(db, t))
            && (key.Some? ==> (db.records[key.value].tuple == t <==> TupleHeld(db, t)))
  {
    var key := FindRecord(db.records, t.device, t.generation);
    forall p | 0 <= p < |db.records|
      ensures SameKey(db.records[p].tuple, t) <==> Keyed(db.records[p], t.device, t.generation)
    {
    }
    if key.Some? {
      forall p | 0 <= p < |db.records| && db.records[p].tuple == t ensures p == key.value {
        assert Keyed(db.records[p], t.device, t.generation);
      }
    }
  }

  /** Every answer of a reservation, each exactly when it is given. */
  lemma ReserveAnswers(db: Db, sub: Submission, now: nat)
    requires Inv(db) && Linked(db)
    ensures
      var answer := Reserve(db, sub, now).1;
      var t := sub.tuple;
      && (answer == Ok(Refused) <==>
            Fits(t) && (if sub.operation in db.operations then db.operations[sub.operation].tuple != t
                        else if KeyTaken(db, t) then !TupleHeld(db, t)
                        else AtCounter(db, sub) && !Bound(db, t)))
      && (answer.Ok? && answer.value.Replayed? <==>
            Fits(t) && (if sub.operation in db.operations then db.operations[sub.operation].tuple == t
                        else TupleHeld(db, t)))
      && (answer.Ok? && answer.value.Reserved? <==>
            AtCounter(db, sub) && Bound(db, t) && db.devices[t.device].status != Revoked && t.generation < 0x7fff_ffff_ffff_ffff)
      && (answer == Err(NotFound) <==> NewKey(db, sub) && t.device !in db.generations)
      && (forall e, c :: answer == Err(StaleGeneration(e, c)) <==>
            NewKey(db, sub) && t.device in db.generations && e == t.generation != c == db.generations[t.device])
      && (answer == Err(ConflictError) <==>
            AtCounter(db, sub) && Bound(db, t) && db.devices[t.device].status == Revoked)
      && (answer == Err(SqlError) <==>
            !Fits(t) || (AtCounter(db, sub) && Bound(db, t) && db.devices[t.device].status != Revoked
                         && t.generation == 0x7fff_ffff_ffff_ffff))
  {
    SearchFinds(db, sub.tuple);
    ReserveByKey(db, sub, now);
  }

  lemma ReserveByKey(db: Db, sub: Submission, now: nat)
    requires Linked(db) && CountersOk(db.generations, db.devices) && UniqueKeys(db.records)
    requires var t := sub.tuple;
             var key := FindRecord(db.records, t.device, t.generation);
             && (key.Some? <==> KeyTaken(db, t))
             && (key.Some? ==> (db.records[key.value].tuple == t <==> TupleHeld(db, t)))
    ensures
      var answer := Reserve(db, sub, now).1;
      var t := sub.tuple;
      && (answer == Ok(Refused) <==>
            Fits(t) && (if sub.operation in db.operations then db.operations[sub.operation].tuple != t
                        else if KeyTaken(db, t) then !TupleHeld(db, t)
                        else AtCounter(db, sub) && !Bound(db, t)))
      && (answer.Ok? && answer.value.Replayed? <==>
            Fits(t) && (if sub.operation in db.operations then db.operations[sub.operation].tuple == t
                        else TupleHeld(db, t)))
      && (answer.Ok? && answer.value.Reserved? <==>
            AtCounter(db, sub) && Bound(db, t) && db.devices[t.device].status != Revoked && t.generation < 0x7fff_ffff_ffff_ffff)
      && (answer == Err(NotFound) <==> NewKey(db, sub) && t.device !in db.generations)
      && (forall e, c :: answer == Err(StaleGeneration(e, c)) <==>
            NewKey(db, sub) && t.device in db.generations && e == t.generation != c == db.generations[t.device])
      && (answer == Err(ConflictError) <==>
            AtCounter(db, sub) && Bound(db, t) && db.devices[t.device].status == Revoked)
      && (answer == Err(SqlError) <==>
            !Fits(t) || (AtCounter(db, sub) && Bound(db, t) && db.devices[t.device].status != Revoked
                         && t.generation == 0x7fff_ffff_ffff_ffff))
  {
    if TupleHeld(db, sub.tuple) {
      var p :| 0 <= p < |db.records| && db.records[p].tuple == sub.tuple;
      assert SameKey(db.records[p].tuple, sub.tuple);
    }
    hide KeyTaken, TupleHeld, FindRecord, WithReservation, WithOperation, UniqueKeys;
  }

  /** The rows a reservation that makes a record adds, and what they say. */
  lemma ReservedRows(db: Db, sub: Submission, now: nat)
    requires Linked(db) && Reserve(db, sub, now).1.Ok? && Reserve(db, sub, now).1.value.Reserved?
    ensures
      var (d2, answer) := Reserve(db, sub, now);
      var t := sub.tuple;
      var n := |db.records|;
      && answer.value.view.projection == n && |d2.records| == n + 1 && d2.records[..n] == db.records
      && (var r := d2.records[n];
          r.tuple == t && r.state == Desired && r.revision == 1 && r.persistedAt == now
          && r.current == r.attemptedAt == r.appliedAt == r.conflictAt == None)
      && d2.operations.Keys == db.operations.Keys + {sub.operation}
      && d2.operations[sub.operation].projection == n && d2.operations[sub.operation].tuple == t
      && d2.devices[t.device].status == d2.devices[t.device].jsonStatus == Pending
      && (forall d :: d in db.devices && d != t.device ==> d in d2.devices && d2.devices[d] == db.devices[d])
      && d2.attempts == db.attempts && d2.inspections == db.inspections && d2.active == db.active
  {
    hide FindRecord;
  }

  /** A replay shows the record that holds the tuple, and adds the operation if it is new. */
  lemma ReplayedRows(db: Db, sub: Submission, now: nat)
    requires Inv(db) && Linked(db) && Reserve(db, sub, now).1.Ok? && Reserve(db, sub, now).1.value.Replayed?
    ensures
      var (d2, answer) := Reserve(db, sub, now);
      var v := answer.value.view;
      && v.projection < |db.records| && db.records[v.projection].tuple == sub.tuple == v.tuple
      && v.state == db.records[v.projection].state && v.revision == db.records[v.projection].revision
      && sub.operation in d2.operations && d2.operations[sub.operation].projection == v.projection
      && d2.operations[sub.operation].tuple == sub.tuple
      && (forall op :: op in db.operations ==> op in d2.operations && d2.operations[op] == db.operations[op])
      && d2 == db.(operations := d2.operations)
  {
    assert sub.operation in db.operations ==>
      db.records[db.operations[sub.operation].projection].tuple == db.operations[sub.operation].tuple;
    hide FindRecord, Inv, Linked;
  }

  // ------------------------------------------------------------------ attempts

  /** The operation names this device and generation. */
  predicate Names(db: Db, op: OperationId, device: DeviceId, generation: Generation) {
    op in db.operations && db.operations[op].tuple.device == device && db.operations[op].tuple.generation == generation
  }

  /** Every answer of an attempt, each exactly when it is given. */
  lemma AttemptAnswers(db: Db, op: OperationId, device: DeviceId, generation: Generation, expected: nat, now: nat)
    requires Linked(db) && RecordsOk(db.records, db.devices)
    ensures
      var (d2, answer) := Attempt(db, op, device, generation, expected, now);
      && (answer == Err(NotFound) <==> op !in db.operations)
      && (op in db.operations && !Names(db, op, device, generation) ==> answer == Err(ConflictError))
      && (Names(db, op, device, generation) ==>
            var r := db.records[db.operations[op].projection];
            var bound := ActiveBinding(r.tuple.network, r.tuple.device, r.tuple.binding) in db.active;
            var stale := r.state == Desired && now < r.persistedAt;
            && (forall e, c :: answer == Err(StaleGeneration(e, c)) <==> e == expected != c == r.revision)
            && (answer.Ok? && answer.value.AlreadySettled? <==>
                  expected == r.revision && (r.state == Applied || r.state == Conflict))
            && (answer == Err(ConflictError) <==>
                  expected == r.revision && (r.state == Desired || r.state == Attempted) && !bound)
            && (answer == Err(SqlError) <==> expected == r.revision && bound && stale)
            && (answer.Ok? && answer.value.Recorded? <==>
                  expected == r.revision && (r.state == Desired || r.state == Attempted) && bound && !stale))
      && (answer.Err? || answer.value.AlreadySettled? ==> d2 == db)
  {
    if Names(db, op, device, generation) { assert RecordShape(db.records[db.operations[op].projection]); }
    hide WithAttempt, Linked, RecordsOk;
  }

  /** What a recorded attempt writes. */
  lemma AttemptedRows(db: Db, op: OperationId, device: DeviceId, generation: Generation, expected: nat, now: nat)
    requires Linked(db)
    requires var answer := Attempt(db, op, device, generation, expected, now).1; answer.Ok? && answer.value.Recorded?
    ensures
      var (d2, answer) := Attempt(db, op, device, generation, expected, now);
      var p := db.operations[op].projection;
      var r, s := db.records[p], d2.records[p];
      && answer.value.view == View(p, r.tuple, 2, Attempted) && |d2.records| == |db.records|
      && (forall q :: 0 <= q < |db.records| && q != p ==> d2.records[q] == db.records[q])
      && s.tuple == r.tuple && s.state == Attempted && s.revision == 2 && s.persistedAt == r.persistedAt
      && s.attemptedAt == (if r.state == Desired then Some(now) else r.attemptedAt)
      && s.appliedAt == r.appliedAt && s.conflictAt == r.conflictAt
      && s.current == Some(|db.attempts|) && |d2.attempts| == |db.attempts| + 1 && db.attempts <= d2.attempts
      && d2.attempts[|db.attempts|].operation == op && d2.attempts[|db.attempts|].at == now
      && d2.operations == db.operations && d2.devices == db.devices && d2.inspections == db.inspections
      && d2.generations == db.generations && d2.active == db.active
  {
    hide CountAttempts;
  }

  // ---------------------------------------------------------------- recoveries

  /** An inspection of this attempt is stamped after `now`. */
  ghost predicate SteppedBack(db: Db, attempt: nat, now: nat) {
    exists i :: 0 <= i < |db.inspections| && db.inspections[i].attempt == attempt && db.inspections[i].at > now
  }

  predicate ReadsDesired(r: Record, body: Body) { body == r.tuple.body && Sha256(body) == r.tuple.hash }

  /** The device status a settlement of this body asks for. */
  function StatusOfBody(r: Record, body: Body): ProjectionStatus {
    if ReadsDesired(r, body) then StatusApplied else StatusConflict
  }

  /** Every answer of a recovery, each exactly when it is given. */
  lemma RecoverAnswers(
    db: Db, op: OperationId, device: DeviceId, generation: Generation, expected: nat, inspection: Inspection, now: nat)
    requires Inv(db) && Linked(db)
    ensures
      var (d2, answer) := Recover(db, op, device, generation, expected, inspection, now);
      && (answer == Err(NotFound) <==> op !in db.operations)
      && (op in db.operations && !Names(db, op, device, generation) ==> answer == Err(ConflictError))
      && (answer.Err? ==> d2 == db)
      && (Names(db, op, device, generation) ==> RecoveryAnswers(db, op, expected, inspection, now, d2, answer))
  {
    if Names(db, op, device, generation) {
      var p := db.operations[op].projection;
      assert RecordShape(db.records[p]);
      assert db.records[p].tuple == db.operations[op].tuple;
      CountedStatus(db, db.records[p].tuple.device);
      RecoveryAnswered(db, op, expected, inspection, now);
    }
    hide Inv, RecoveryAnswers;
  }

  lemma CountedStatus(db: Db, d: DeviceId)
    requires CountersOk(db.generations, db.devices) && d in db.devices
    ensures db.devices[d].status == db.devices[d].jsonStatus
  {
  }

  ghost predicate RecoveryAnswers(
    db: Db, op: OperationId, expected: nat, inspection: Inspection, now: nat, d2: Db, answer: Result<View>)
    requires Linked(db) && op in db.operations
  {
    var p := db.operations[op].projection;
    var r := db.records[p];
    && (forall e, c :: answer == Err(StaleGeneration(e, c)) <==> e == expected != c == r.revision)
    && (expected == r.revision && (r.state == Applied || r.state == Conflict) ==>
          d2 == db && answer == Ok(View(p, r.tuple, r.revision, r.state)))
    && (expected == r.revision && r.state == Desired ==> answer == Err(ConflictError))
    && (expected == r.revision && r.state == Attempted ==>
          && r.current.Some? && r.current.value < |db.attempts|
          && var a := r.current.value;
             var maker := db.attempts[a].operation == op;
             match inspection
             case Observed(body) =>
               var admitted := maker && !SteppedBack(db, a, now) && r.persistedAt <= now;
               var status := db.devices[r.tuple.device].status;
               var free := status == Pending || status == StatusOfBody(r, body);
               && (answer == Err(SqlError) <==> !admitted)
               && (answer == Err(ConflictError) <==> admitted && !free)
               && (answer.Ok? <==> admitted && free)
               && (answer.Ok? ==> SettledRows(db, d2, p, body, now)
                                  && answer == Ok(View(p, r.tuple, 3, d2.records[p].state)))
             case _ =>
               && (answer == Err(SqlError) <==> !maker)
               && (answer.Ok? <==> maker)
               && (answer.Ok? ==>
                     && d2 == db.(inspections := db.inspections + [InspectionRow(p, op, a, inspection, now)])
                     && answer == Ok(View(p, r.tuple, 2, Attempted))))
  }

  /** What a settlement writes. */
  ghost predicate SettledRows(db: Db, d2: Db, p: nat, body: Body, now: nat)
    requires p < |db.records| && db.records[p].tuple.device in db.devices
  {
    var r := db.records[p];
    var d := r.tuple.device;
    && |d2.records| == |db.records| && (forall q :: 0 <= q < |db.records| && q != p ==> d2.records[q] == db.records[q])
    && (var s := d2.records[p];
        && s.tuple == r.tuple && s.revision == 3 && s.current == r.current
        && s.persistedAt == r.persistedAt && s.attemptedAt == r.attemptedAt
        && (if ReadsDesired(r, body) then s.state == Applied && s.appliedAt == Some(now) && s.conflictAt == r.conflictAt
            else s.state == Conflict && s.conflictAt == Some(now) && s.appliedAt == r.appliedAt))
    && d in d2.devices && d2.devices[d].status == d2.devices[d].jsonStatus == StatusOfBody(r, body)
    && (forall e :: e in db.devices && e != d ==> e in d2.devices && d2.devices[e] == db.devices[e])
    && |d2.inspections| == |db.inspections| + 1 && db.inspections <= d2.inspections
    && d2.inspections[|db.inspections|].kind == Observed(body) && d2.inspections[|db.inspections|].at == now
    && d2.attempts == db.attempts && d2.operations == db.operations && d2.generations == db.generations
  }

  lemma RecoveryAnswered(db: Db, op: OperationId, expected: nat, inspection: Inspection, now: nat)
    requires Linked(db) && op in db.operations
    requires var r := db.records[db.operations[op].projection];
             r.tuple == db.operations[op].tuple && RecordShape(r)
             && db.devices[r.tuple.device].status == db.devices[r.tuple.device].jsonStatus
    ensures var t := db.operations[op].tuple;
            var (d2, answer) := Recover(db, op, t.device, t.generation, expected, inspection, now);
            RecoveryAnswers(db, op, expected, inspection, now, d2, answer) && (answer.Err? ==> d2 == db)
  {
    var p := db.operations[op].projection;
    var r := db.records[p];
    if r.state == Attempted {
      InspectionAnswered(db, op, p, r.current.value, inspection, now);
      hide Inspect, SettledRows, SteppedBack;
    } else {
      hide Inspect, SettledRows, SteppedBack;
    }
  }

  lemma InspectionAnswered(db: Db, op: OperationId, p: nat, a: nat, inspection: Inspection, now: nat)
    requires p < |db.records| && a < |db.attempts| && db.records[p].tuple.device in db.devices
    requires db.devices[db.records[p].tuple.device].status == db.devices[db.records[p].tuple.device].jsonStatus
    requires RecordShape(db.records[p]) && db.records[p].state == Attempted
    ensures
      var (d2, answer) := Inspect(db, op, p, a, inspection, now);
      var r := db.records[p];
      var maker := db.attempts[a].operation == op;
      && (answer.Err? ==> d2 == db)
      && match inspection
         case Observed(body) =>
           var admitted := maker && !SteppedBack(db, a, now) && r.persistedAt <= now;
           var status := db.devices[r.tuple.device].status;
           var free := status == Pending || status == StatusOfBody(r, body);
           && (answer == Err(SqlError) <==> !admitted)
           && (answer == Err(ConflictError) <==> admitted && !free)
           && (answer.Ok? <==> admitted && free)
           && (answer.Ok? ==> SettledRows(db, d2, p, body, now) && answer == Ok(View(p, r.tuple, 3, d2.records[p].state)))
         case _ =>
           && (answer == Err(SqlError) <==> !maker)
           && (answer.Ok? <==> maker)
           && (answer.Ok? ==>
                 && d2 == db.(inspections := db.inspections + [InspectionRow(p, op, a, inspection, now)])
                 && answer == Ok(View(p, r.tuple, 2, Attempted)))
  {
    assert ClockCovers(db, a, now) <==> !SteppedBack(db, a, now);
    hide ClockCovers, SteppedBack;
  }
}
