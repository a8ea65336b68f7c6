/** What holds of the ledger in every reachable store.
 *
 *  Each invariant names only the tables it speaks of, so a transaction has to be
 *  compared with the few invariants whose tables it writes.
 */
module FleetLedgerInvariant {
  import opened Options
  import opened FleetLedger

  // --------------------------------------------------------------- invariants

  /** The table CHECK: state, revision, current attempt and stamps go together. */
  predicate RecordShape(r: Record) {
    && r.revision == (match r.state case Desired => 1 case Attempted => 2 case Applied => 3 case Conflict => 3)
    && (r.state == Desired <==> r.current.None?)
    && (r.state == Desired <==> r.attemptedAt.None?)
    && (r.state == Applied <==> r.appliedAt.Some?)
    && (r.state == Conflict <==> r.conflictAt.Some?)
    && (r.attemptedAt.Some? ==> r.persistedAt <= r.attemptedAt.value)
    && (r.appliedAt.Some? ==> r.persistedAt <= r.appliedAt.value)
    && (r.conflictAt.Some? ==> r.persistedAt <= r.conflictAt.value)
  }

  ghost predicate RecordsOk(records: seq<Record>, devices: map<DeviceId, Device>) {
    forall p :: 0 <= p < |records| ==>
      && RecordShape(records[p])
      && records[p].tuple.device in devices
      && devices[records[p].tuple.device].network == records[p].tuple.network
  }

  /** An operation names one full tuple and agrees with its projection row. */
  ghost predicate OperationsOk(records: seq<Record>, operations: map<OperationId, Operation>) {
    forall op :: op in operations ==>
      && operations[op].projection < |records|
      && records[operations[op].projection].tuple == operations[op].tuple
  }

  /** At most one record for each device and generation. */
  ghost predicate UniqueKeys(records: seq<Record>) {
    forall p, q :: 0 <= p < q < |records| ==>
      !Keyed(records[p], records[q].tuple.device, records[q].tuple.generation)
  }

  /** The attempts of a projection are numbered 1, 2, ... in row order, and each
   *  was made by an operation of that projection. */
  ghost predicate AttemptsOk(operations: map<OperationId, Operation>, attempts: seq<AttemptRow>) {
    forall i :: 0 <= i < |attempts| ==>
      && attempts[i].operation in operations
      && operations[attempts[i].operation].projection == attempts[i].projection
      && attempts[i].number == CountAttempts(attempts[..i], attempts[i].projection) + 1
  }

  /** A projection's current attempt is its last one; a desired one has none. */
  ghost predicate CurrentOk(r: Record, attempts: seq<AttemptRow>, p: nat) {
    match r.current
    case None => forall i :: 0 <= i < |attempts| ==> attempts[i].projection != p
    case Some(a) =>
      && a < |attempts| && attempts[a].projection == p
      && (forall i :: a < i < |attempts| ==> attempts[i].projection != p)
  }

  ghost predicate CurrentsOk(records: seq<Record>, attempts: seq<AttemptRow>) {
    && (forall p :: 0 <= p < |records| ==> CurrentOk(records[p], attempts, p))
    && (forall i :: 0 <= i < |attempts| ==> attempts[i].projection < |records|)
  }

  /** Inspections belong to an attempt and to the operation that made it. */
  ghost predicate InspectionsOk(attempts: seq<AttemptRow>, inspections: seq<InspectionRow>) {
    forall i :: 0 <= i < |inspections| ==>
      && inspections[i].attempt < |attempts|
      && attempts[inspections[i].attempt].projection == inspections[i].projection
      && attempts[inspections[i].attempt].operation == inspections[i].operation
  }

  /** This row shows that projection `p` settled on what was read back for its
   *  current attempt. */
  ghost predicate Evidence(r: Record, row: InspectionRow, p: nat) {
    && row.projection == p
    && r.current == Some(row.attempt)
    && row.kind.Observed?
    && r.state == Verdict(r.tuple, row.kind.body)
  }

  ghost predicate EvidenceOk(r: Record, inspections: seq<InspectionRow>, p: nat) {
    if Terminal(r.state)
    then exists i :: 0 <= i < |inspections| && Evidence(r, inspections[i], p)
    else forall i :: 0 <= i < |inspections| && inspections[i].projection == p ==>
      !inspections[i].kind.Observed?
  }

  /** Settled records have their evidence; no other record has a body read back. */
  ghost predicate EvidencesOk(records: seq<Record>, inspections: seq<InspectionRow>) {
    forall p :: 0 <= p < |records| ==> EvidenceOk(records[p], inspections, p)
  }

  /** What the audit rows of one projection say on their own: its state and how
   *  many attempts it has, or that no such history is possible. */
  datatype History = Absent | Impossible | At(state: State, attempts: nat)

  function AuditStep(h: History, row: AuditRow): History {
    match row.kind
    case Desired => if h == Absent && row.revision == 1 then At(Desired, 0) else Impossible
    case Attempted =>
      if h.At? && !Terminal(h.state) && row.revision == 2 then At(Attempted, h.attempts + 1) else Impossible
    case Applied => if h.At? && h.state == Attempted && row.revision == 3 then At(Applied, h.attempts) else Impossible
    case Conflict => if h.At? && h.state == Attempted && row.revision == 3 then At(Conflict, h.attempts) else Impossible
  }

  function Replay(audit: seq<AuditRow>, p: nat): History {
    if audit == [] then Absent
    else
      var last := audit[|audit| - 1];
      var before := Replay(audit[..|audit| - 1], p);
      if last.projection == p then AuditStep(before, last) else before
  }

  /** Replaying the audit rows gives exactly each record's state and attempts. */
  ghost predicate AuditOk(records: seq<Record>, attempts: seq<AttemptRow>, audit: seq<AuditRow>) {
    && (forall p :: 0 <= p < |records| ==>
          Replay(audit, p) == At(records[p].state, CountAttempts(attempts, p)))
    && (forall i :: 0 <= i < |audit| ==> audit[i].projection < |records|)
  }

  /** The three copies of a device's counter agree and fit a column. */
  ghost predicate CountersOk(generations: map<DeviceId, nat>, devices: map<DeviceId, Device>) {
    && generations.Keys == devices.Keys
    && (forall d :: d in devices ==>
          && devices[d].generation == generations[d]
          && devices[d].jsonGeneration == generations[d]
          && devices[d].status == devices[d].jsonStatus
          && 1 <= generations[d] <= I64_MAX)
  }

  ghost predicate HasRecord(records: seq<Record>, device: DeviceId, generation: nat) {
    exists q :: 0 <= q < |records| && Keyed(records[q], device, generation)
  }

  /** The records of a device cover a run of generations without a gap that ends
   *  just below its counter. */
  ghost predicate Gapless(records: seq<Record>, generations: map<DeviceId, nat>) {
    forall p :: 0 <= p < |records| ==>
      && records[p].tuple.device in generations
      && records[p].tuple.generation < generations[records[p].tuple.device]
      && (records[p].tuple.generation + 1 < generations[records[p].tuple.device] ==>
            HasRecord(records, records[p].tuple.device, records[p].tuple.generation + 1))
  }

  ghost predicate Inv(db: Db) {
    && RecordsOk(db.records, db.devices)
    && OperationsOk(db.records, db.operations)
    && UniqueKeys(db.records)
    && AttemptsOk(db.operations, db.attempts)
    && CurrentsOk(db.records, db.attempts)
    && InspectionsOk(db.attempts, db.inspections)
    && EvidencesOk(db.records, db.inspections)
    && AuditOk(db.records, db.attempts, db.audit)
    && CountersOk(db.generations, db.devices)
    && Gapless(db.records, db.generations)
  }

  lemma InvLinked(db: Db)
    requires Inv(db)
    ensures Linked(db)
  {
    forall p | 0 <= p < |db.records|
      ensures db.records[p].current.Some? ==> db.records[p].current.value < |db.attempts|
    {
      assert CurrentOk(db.records[p], db.attempts, p);
    }
  }

  // ------------------------------------------------------------ small lemmas

  lemma {:induction false} CountZero(attempts: seq<AttemptRow>, p: nat)
    requires forall i :: 0 <= i < |attempts| ==> attempts[i].projection != p
    ensures CountAttempts(attempts, p) == 0
  {
    if attempts != [] { CountZero(attempts[..|attempts| - 1], p); }
  }

  lemma {:induction false} ReplayAbsent(audit: seq<AuditRow>, p: nat)
    requires forall i :: 0 <= i < |audit| ==> audit[i].projection != p
    ensures Replay(audit, p) == Absent
  {
    if audit != [] { ReplayAbsent(audit[..|audit| - 1], p); }
  }

  lemma CountSnoc(attempts: seq<AttemptRow>, row: AttemptRow, p: nat)
    ensures CountAttempts(attempts + [row], p) ==
            CountAttempts(attempts, p) + (if row.projection == p then 1 else 0)
  {
    assert (attempts + [row])[..|attempts|] == attempts;
  }

  lemma ReplaySnoc(audit: seq<AuditRow>, row: AuditRow, p: nat)
    ensures Replay(audit + [row], p) ==
            if row.projection == p then AuditStep(Replay(audit, p), row) else Replay(audit, p)
  {
    assert (audit + [row])[..|audit|] == audit;
  }

  /** Evidence stays when a record and its rows stay and no new row of it holds
   *  a body. */
  lemma EvidenceFrame(
    r: Record, inspections: seq<InspectionRow>, r2: Record, more: seq<InspectionRow>, p: nat)
    requires EvidenceOk(r, inspections, p)
    requires if Terminal(r.state) then r2 == r else !Terminal(r2.state)
    requires inspections <= more
    requires forall i :: |inspections| <= i < |more| && more[i].projection == p ==> !more[i].kind.Observed?
    ensures EvidenceOk(r2, more, p)
  {
    if Terminal(r.state) {
      var i :| 0 <= i < |inspections| && Evidence(r, inspections[i], p);
      assert Evidence(r2, more[i], p);
    } else {
      forall i | 0 <= i < |more| && more[i].projection == p ensures !more[i].kind.Observed? {
        if i < |inspections| { assert more[i] == inspections[i]; }
      }
    }
  }

  /** A gapless run depends only on keys and counters. */
  lemma GaplessFrame(records: seq<Record>, records2: seq<Record>, generations: map<DeviceId, nat>)
    requires Gapless(records, generations) && |records2| == |records|
    requires forall q :: 0 <= q < |records| ==> records2[q].tuple == records[q].tuple
    ensures Gapless(records2, generations)
  {
    forall q | 0 <= q < |records2|
      && records2[q].tuple.generation + 1 < generations[records2[q].tuple.device]
      ensures HasRecord(records2, records2[q].tuple.device, records2[q].tuple.generation + 1)
    {
      var d, g := records[q].tuple.device, records[q].tuple.generation;
      assert HasRecord(records, d, g + 1);
      var k :| 0 <= k < |records| && Keyed(records[k], d, g + 1);
      assert Keyed(records2[k], d, g + 1);
    }
  }

  /** Rewriting one record without touching its tuple keeps what speaks of keys. */
  lemma KeysFrame(
    records: seq<Record>, records2: seq<Record>, operations: map<OperationId, Operation>,
    generations: map<DeviceId, nat>)
    requires UniqueKeys(records) && OperationsOk(records, operations) && Gapless(records, generations)
    requires |records2| == |records|
    requires forall q :: 0 <= q < |records| ==> records2[q].tuple == records[q].tuple
    ensures UniqueKeys(records2) && OperationsOk(records2, operations) && Gapless(records2, generations)
  {
    GaplessFrame(records, records2, generations);
  }

  // ------------------------------------------------------- reserving keeps it

  lemma NewRecordGapless(db: Db, sub: Submission, now: nat)
    requires Gapless(db.records, db.generations) && sub.tuple.device in db.devices
    requires sub.tuple.device in db.generations
    requires sub.tuple.generation == db.generations[sub.tuple.device]
    ensures var d2 := WithReservation(db, sub, now); Gapless(d2.records, d2.generations)
  {
    var d2 := WithReservation(db, sub, now);
    var n := |db.records|;
    assert Keyed(d2.records[n], sub.tuple.device, sub.tuple.generation);
    assert HasRecord(d2.records, sub.tuple.device, sub.tuple.generation);
    forall p | 0 <= p < |d2.records|
      ensures
        var d, g := d2.records[p].tuple.device, d2.records[p].tuple.generation;
        g < d2.generations[d] && (g + 1 < d2.generations[d] ==> HasRecord(d2.records, d, g + 1))
    {
      var d: DeviceId, g: nat := d2.records[p].tuple.device, d2.records[p].tuple.generation;
      if p < n && g + 1 < db.generations[d] {
        assert HasRecord(db.records, d, g + 1);
        var q :| 0 <= q < n && Keyed(db.records[q], d, g + 1);
        assert Keyed(d2.records[q], d, g + 1);
      }
    }
  }

  lemma NewRecordAudit(db: Db, sub: Submission, now: nat)
    requires AuditOk(db.records, db.attempts, db.audit) && CurrentsOk(db.records, db.attempts)
    requires sub.tuple.device in db.devices
    ensures var d2 := WithReservation(db, sub, now); AuditOk(d2.records, d2.attempts, d2.audit)
  {
    var d2 := WithReservation(db, sub, now);
    CountZero(db.attempts, |db.records|);
    ReplayAbsent(db.audit, |db.records|);
    forall q | 0 <= q < |d2.records|
      ensures Replay(d2.audit, q) == At(d2.records[q].state, CountAttempts(d2.attempts, q))
    {
      ReplaySnoc(db.audit, d2.audit[|db.audit|], q);
    }
  }

  lemma NewRecordRows(db: Db, sub: Submission, now: nat)
    requires CurrentsOk(db.records, db.attempts) && EvidencesOk(db.records, db.inspections)
    requires InspectionsOk(db.attempts, db.inspections)
    requires sub.tuple.device in db.devices
    ensures var d2 := WithReservation(db, sub, now);
            CurrentsOk(d2.records, d2.attempts) && EvidencesOk(d2.records, d2.inspections)
  {
    var d2 := WithReservation(db, sub, now);
    forall q | 0 <= q < |d2.records|
      ensures CurrentOk(d2.records[q], d2.attempts, q) && EvidenceOk(d2.records[q], d2.inspections, q)
    {
      if q < |db.records| {
        assert CurrentOk(db.records[q], db.attempts, q) && EvidenceOk(db.records[q], db.inspections, q);
      }
    }
  }

  lemma NewRecordKeys(db: Db, sub: Submission, now: nat)
    requires RecordsOk(db.records, db.devices) && UniqueKeys(db.records)
    requires OperationsOk(db.records, db.operations) && AttemptsOk(db.operations, db.attempts)
    requires CountersOk(db.generations, db.devices)
    requires sub.tuple.device in db.devices && sub.tuple.generation < I64_MAX
    requires db.devices[sub.tuple.device].network == sub.tuple.network
    requires sub.operation !in db.operations
    requires FindRecord(db.records, sub.tuple.device, sub.tuple.generation).None?
    ensures var d2 := WithReservation(db, sub, now);
            RecordsOk(d2.records, d2.devices) && UniqueKeys(d2.records)
            && OperationsOk(d2.records, d2.operations) && AttemptsOk(d2.operations, d2.attempts)
            && CountersOk(d2.generations, d2.devices)
  {
    NewRecord(db, sub, now);
    NewRecordOperations(db, sub, now);
    NewCounters(db, sub, now);
    hide RecordsOk, UniqueKeys, OperationsOk, AttemptsOk, CountersOk, FindRecord, WithReservation;
  }

  lemma NewRecord(db: Db, sub: Submission, now: nat)
    requires RecordsOk(db.records, db.devices) && UniqueKeys(db.records)
    requires sub.tuple.device in db.devices && sub.tuple.generation < I64_MAX
    requires db.devices[sub.tuple.device].network == sub.tuple.network
    requires FindRecord(db.records, sub.tuple.device, sub.tuple.generation).None?
    ensures var d2 := WithReservation(db, sub, now); RecordsOk(d2.records, d2.devices) && UniqueKeys(d2.records)
  {
  }

  lemma NewRecordOperations(db: Db, sub: Submission, now: nat)
    requires OperationsOk(db.records, db.operations) && AttemptsOk(db.operations, db.attempts)
    requires sub.operation !in db.operations && sub.tuple.device in db.devices
    ensures var d2 := WithReservation(db, sub, now);
            OperationsOk(d2.records, d2.operations) && AttemptsOk(d2.operations, d2.attempts)
  {
  }

  lemma NewCounters(db: Db, sub: Submission, now: nat)
    requires CountersOk(db.generations, db.devices)
    requires sub.tuple.device in db.devices && sub.tuple.generation < I64_MAX
    ensures var d2 := WithReservation(db, sub, now); CountersOk(d2.generations, d2.devices)
  {
  }

  lemma NewOperationKeeps(db: Db, sub: Submission, p: nat, now: nat)
    requires OperationsOk(db.records, db.operations) && AttemptsOk(db.operations, db.attempts)
    requires sub.operation !in db.operations && p < |db.records| && db.records[p].tuple == sub.tuple
    ensures var d2 := WithOperation(db, sub, p, now);
            OperationsOk(d2.records, d2.operations) && AttemptsOk(d2.operations, d2.attempts)
  {
  }

  lemma ReserveKeeps(db: Db, sub: Submission, now: nat)
    requires Inv(db) && Linked(db)
    ensures Inv(Reserve(db, sub, now).0)
  {
    hide RecordsOk, OperationsOk, UniqueKeys, AttemptsOk, CurrentsOk, InspectionsOk, EvidencesOk, AuditOk, CountersOk, Gapless;
    var t := sub.tuple;
    var d2 := Reserve(db, sub, now).0;
    if d2 != db {
      match FindRecord(db.records, t.device, t.generation)
      case Some(p) => NewOperationKeeps(db, sub, p, now);
      case None =>
        NewRecordKeys(db, sub, now);
        NewRecordRows(db, sub, now);
        NewRecordAudit(db, sub, now);
        NewRecordGapless(db, sub, now);
    }
  }

  // ----------------------------------------------------- attempting keeps it

  lemma NewAttemptRows(db: Db, op: OperationId, p: nat, now: nat)
    requires AttemptsOk(db.operations, db.attempts) && CurrentsOk(db.records, db.attempts)
    requires op in db.operations && db.operations[op].projection == p && p < |db.records|
    ensures var d2 := WithAttempt(db, op, p, now);
            AttemptsOk(d2.operations, d2.attempts) && CurrentsOk(d2.records, d2.attempts)
  {
    var d2 := WithAttempt(db, op, p, now);
    var n := |db.attempts|;
    forall i | 0 <= i < |d2.attempts|
      ensures d2.attempts[i].number == CountAttempts(d2.attempts[..i], d2.attempts[i].projection) + 1
    {
      assert d2.attempts[..i] == db.attempts[..i];
      if i == n { assert db.attempts[..i] == db.attempts; }
    }
    forall q | 0 <= q < |d2.records| ensures CurrentOk(d2.records[q], d2.attempts, q) {
      assert CurrentOk(db.records[q], db.attempts, q);
    }
  }

  lemma NewAttemptAudit(db: Db, op: OperationId, p: nat, now: nat)
    requires AuditOk(db.records, db.attempts, db.audit)
    requires p < |db.records| && !Terminal(db.records[p].state)
    ensures var d2 := WithAttempt(db, op, p, now); AuditOk(d2.records, d2.attempts, d2.audit)
  {
    var d2 := WithAttempt(db, op, p, now);
    forall q | 0 <= q < |d2.records|
      ensures Replay(d2.audit, q) == At(d2.records[q].state, CountAttempts(d2.attempts, q))
    {
      ReplaySnoc(db.audit, d2.audit[|db.audit|], q);
      CountSnoc(db.attempts, d2.attempts[|db.attempts|], q);
    }
  }

  lemma NewAttemptEvidence(db: Db, op: OperationId, p: nat, now: nat)
    requires EvidencesOk(db.records, db.inspections)
    requires p < |db.records| && !Terminal(db.records[p].state)
    ensures var d2 := WithAttempt(db, op, p, now); EvidencesOk(d2.records, d2.inspections)
  {
    var d2 := WithAttempt(db, op, p, now);
    forall q | 0 <= q < |d2.records| ensures EvidenceOk(d2.records[q], d2.inspections, q) {
      EvidenceFrame(db.records[q], db.inspections, d2.records[q], d2.inspections, q);
    }
  }

  lemma NewAttemptKeeps(db: Db, op: OperationId, p: nat, now: nat)
    requires Inv(db) && op in db.operations && db.operations[op].projection == p
    requires p < |db.records| && !Terminal(db.records[p].state)
    requires db.records[p].state == Desired ==> db.records[p].persistedAt <= now
    ensures Inv(WithAttempt(db, op, p, now))
  {
    hide RecordsOk, OperationsOk, UniqueKeys, AttemptsOk, CurrentsOk, InspectionsOk, EvidencesOk, AuditOk, CountersOk, Gapless;
    var d2 := WithAttempt(db, op, p, now);
    NewAttemptRows(db, op, p, now);
    NewAttemptAudit(db, op, p, now);
    NewAttemptEvidence(db, op, p, now);
    KeysFrame(db.records, d2.records, db.operations, db.generations);
    NewAttemptShape(db, op, p, now);
  }

  lemma NewAttemptShape(db: Db, op: OperationId, p: nat, now: nat)
    requires RecordsOk(db.records, db.devices) && InspectionsOk(db.attempts, db.inspections)
    requires p < |db.records| && !Terminal(db.records[p].state)
    requires db.records[p].state == Desired ==> db.records[p].persistedAt <= now
    ensures var d2 := WithAttempt(db, op, p, now);
            RecordsOk(d2.records, d2.devices) && InspectionsOk(d2.attempts, d2.inspections)
  {
    assert RecordShape(db.records[p]);
  }

  lemma AttemptKeeps(
    db: Db, op: OperationId, device: DeviceId, generation: Generation, expected: nat, now: nat)
    requires Inv(db) && Linked(db)
    ensures Inv(Attempt(db, op, device, generation, expected, now).0)
  {
    hide Inv;
    var d2 := Attempt(db, op, device, generation, expected, now).0;
    if d2 != db { NewAttemptKeeps(db, op, db.operations[op].projection, now); }
  }

  // ------------------------------------------------------ recovering keeps it

  lemma NewInspectionRow(db: Db, op: OperationId, p: nat, a: nat, kind: Inspection, now: nat)
    requires InspectionsOk(db.attempts, db.inspections)
    requires a < |db.attempts| && db.attempts[a].projection == p && db.attempts[a].operation == op
    ensures InspectionsOk(db.attempts, WithInspection(db, op, p, a, kind, now).inspections)
  {
  }

  lemma NewInspectionKeeps(db: Db, op: OperationId, p: nat, a: nat, kind: Inspection, now: nat)
    requires EvidencesOk(db.records, db.inspections) && !kind.Observed?
    ensures var d2 := WithInspection(db, op, p, a, kind, now); EvidencesOk(d2.records, d2.inspections)
  {
    var d2 := WithInspection(db, op, p, a, kind, now);
    forall q | 0 <= q < |d2.records| ensures EvidenceOk(d2.records[q], d2.inspections, q) {
      EvidenceFrame(db.records[q], db.inspections, d2.records[q], d2.inspections, q);
    }
  }

  /** The row inserted by the same transaction is the evidence of the verdict. */
  lemma SettlementEvidence(db: Db, op: OperationId, p: nat, body: Body, now: nat)
    requires EvidencesOk(db.records, db.inspections)
    requires p < |db.records| && db.records[p].current.Some? && db.records[p].tuple.device in db.devices
    ensures var d1 := WithInspection(db, op, p, db.records[p].current.value, Observed(body), now);
            var d2 := WithSettlement(d1, op, p, Verdict(db.records[p].tuple, body), now);
            EvidencesOk(d2.records, d2.inspections)
  {
    var d1 := WithInspection(db, op, p, db.records[p].current.value, Observed(body), now);
    var d2 := WithSettlement(d1, op, p, Verdict(db.records[p].tuple, body), now);
    forall q | 0 <= q < |d2.records| ensures EvidenceOk(d2.records[q], d2.inspections, q) {
      if q == p {
        assert Evidence(d2.records[p], d2.inspections[|db.inspections|], p);
      } else {
        EvidenceFrame(db.records[q], db.inspections, d2.records[q], d2.inspections, q);
      }
    }
  }

  lemma SettlementRows(db: Db, op: OperationId, p: nat, verdict: State, now: nat)
    requires CurrentsOk(db.records, db.attempts) && AuditOk(db.records, db.attempts, db.audit)
    requires p < |db.records| && db.records[p].state == Attempted && Terminal(verdict)
    requires db.records[p].tuple.device in db.devices
    ensures var d2 := WithSettlement(db, op, p, verdict, now);
            CurrentsOk(d2.records, d2.attempts) && AuditOk(d2.records, d2.attempts, d2.audit)
  {
    var d2 := WithSettlement(db, op, p, verdict, now);
    forall q | 0 <= q < |d2.records|
      ensures CurrentOk(d2.records[q], d2.attempts, q)
      ensures Replay(d2.audit, q) == At(d2.records[q].state, CountAttempts(d2.attempts, q))
    {
      assert CurrentOk(db.records[q], db.attempts, q);
      ReplaySnoc(db.audit, d2.audit[|db.audit|], q);
    }
  }

  lemma SettlementShape(db: Db, op: OperationId, p: nat, verdict: State, now: nat)
    requires RecordsOk(db.records, db.devices) && CountersOk(db.generations, db.devices)
    requires p < |db.records| && db.records[p].state == Attempted && Terminal(verdict)
    requires db.records[p].persistedAt <= now && db.records[p].tuple.device in db.devices
    ensures var d2 := WithSettlement(db, op, p, verdict, now);
            RecordsOk(d2.records, d2.devices) && CountersOk(d2.generations, d2.devices)
  {
    assert RecordShape(db.records[p]);
  }

  lemma NewSettlementKeeps(db: Db, op: OperationId, p: nat, a: nat, body: Body, now: nat)
    requires Inv(db) && p < |db.records| && db.records[p].state == Attempted
    requires db.records[p].tuple.device in db.devices && db.records[p].persistedAt <= now
    requires db.records[p].current == Some(a) && a < |db.attempts|
    requires db.attempts[a].projection == p && db.attempts[a].operation == op
    ensures var d1 := WithInspection(db, op, p, a, Observed(body), now);
            Inv(WithSettlement(d1, op, p, Verdict(db.records[p].tuple, body), now))
  {
    hide RecordsOk, OperationsOk, UniqueKeys, AttemptsOk, CurrentsOk, InspectionsOk, EvidencesOk, AuditOk, CountersOk, Gapless;
    var d1 := WithInspection(db, op, p, a, Observed(body), now);
    var verdict := Verdict(db.records[p].tuple, body);
    var d2 := WithSettlement(d1, op, p, verdict, now);
    NewInspectionRow(db, op, p, a, Observed(body), now);
    SettlementEvidence(db, op, p, body, now);
    SettlementRows(d1, op, p, verdict, now);
    SettlementShape(d1, op, p, verdict, now);
    KeysFrame(db.records, d2.records, db.operations, db.generations);
  }

  lemma RecoverKeeps(
    db: Db, op: OperationId, device: DeviceId, generation: Generation, expected: nat,
    inspection: Inspection, now: nat)
    requires Inv(db) && Linked(db)
    ensures Inv(Recover(db, op, device, generation, expected, inspection, now).0)
  {
    var d2 := Recover(db, op, device, generation, expected, inspection, now).0;
    if d2 != db {
      var p := db.operations[op].projection;
      var a := db.records[p].current.value;
      assert CurrentOk(db.records[p], db.attempts, p);
      hide RecordsOk, OperationsOk, UniqueKeys, AttemptsOk, CurrentsOk, InspectionsOk, EvidencesOk, AuditOk, CountersOk, Gapless;
      if inspection.Observed? {
        NewSettlementKeeps(db, op, p, a, inspection.body, now);
      } else {
        NewInspectionRow(db, op, p, a, inspection, now);
        NewInspectionKeeps(db, op, p, a, inspection, now);
      }
    }
  }

  lemma RegisterKeeps(db: Db, d: DeviceId, n: NetworkId, g: Generation, s: ProjectionStatus)
    requires Inv(db)
    ensures Inv(Register(db, d, n, g, s))
  {
  }

  // --------------------------------------------------------------------- runs

  function Step(db: Db, e: Event): Db
    requires Inv(db)
  {
    InvLinked(db);
    match e
    case ReserveEvent(sub, now) => Reserve(db, sub, now).0
    case AttemptEvent(op, d, g, rev, now) => Attempt(db, op, d, g, rev, now).0
    case RecoverEvent(op, d, g, rev, inspection, now) => Recover(db, op, d, g, rev, inspection, now).0
    case RegisterEvent(d, n, g, s) => Register(db, d, n, g, s)
    case BindingsEvent(active) => db.(active := active)
  }

  lemma StepKeeps(db: Db, e: Event)
    requires Inv(db)
    ensures Inv(Step(db, e))
  {
    hide Inv, Linked, Reserve, Attempt, Recover, Register;
    InvLinked(db);
    match e
    case ReserveEvent(sub, now) => ReserveKeeps(db, sub, now);
    case AttemptEvent(op, d, g, rev, now) => AttemptKeeps(db, op, d, g, rev, now);
    case RecoverEvent(op, d, g, rev, inspection, now) => RecoverKeeps(db, op, d, g, rev, inspection, now);
    case RegisterEvent(d, n, g, s) => RegisterKeeps(db, d, n, g, s);
    case BindingsEvent(active) => BindingsKeep(db, active);
  }

  lemma BindingsKeep(db: Db, active: set<ActiveBinding>)
    requires Inv(db)
    ensures Inv(db.(active := active))
  {
  }
}
