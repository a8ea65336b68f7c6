/** Properties of whole runs of the ledger. */
module FleetLedgerRuns {
  import opened Options
  import opened FleetLedger
  import opened FleetLedgerInvariant

  /** The store after a run of events. Every reachable store meets `Inv`. */
  function Run(db: Db, es: seq<Event>): (r: Db)
    requires Inv(db)
    ensures Inv(r)
    decreases |es|
  {
    if es == [] then db
    else
      StepKeeps(db, es[0]);
      Run(Step(db, es[0]), es[1..])
  }

  /** The audit trail, the attempts and the state agree in every reachable store:
   *  replaying the audit rows of a record gives its state and k attempts, and the
   *  revision follows from the state. */
  lemma LedgerOfEveryRun(es: seq<Event>, p: nat)
    requires p < |Run(EmptyDb, es).records|
    ensures var db := Run(EmptyDb, es);
            var r := db.records[p];
            var k := CountAttempts(db.attempts, p);
            && Replay(db.audit, p) == At(r.state, k)
            && r.revision == (if r.state == Desired then 1 else if r.state == Attempted then 2 else 3)
            && (r.state == Desired <==> k == 0)
  {
    var db := Run(EmptyDb, es);
    assert RecordShape(db.records[p]);
    CurrentIsLastNumber(db.records[p], db.attempts, db.operations, p);
  }

  predicate IsDesired(r: Record, body: Body) { body == r.tuple.body && Sha256(body) == r.tuple.hash }

  /** A row that read back the desired body, or another one, for the current attempt
   *  of a projection. */
  predicate ReadBackOf(r: Record, row: InspectionRow, p: nat, desired: bool) {
    row.projection == p && r.current == Some(row.attempt) && row.kind.Observed? && IsDesired(r, row.kind.body) == desired
  }

  ghost predicate HasReadBack(r: Record, inspections: seq<InspectionRow>, p: nat, desired: bool) {
    exists i :: 0 <= i < |inspections| && ReadBackOf(r, inspections[i], p, desired)
  }

  /** In every reachable store a settled record keeps the inspection it settled on,
   *  linked to its current attempt: an applied one the desired body, a conflicting
   *  one some other body. For any other record no body was ever read back, for
   *  whichever of its attempts. */
  lemma SettledMeansEvidence(es: seq<Event>, p: nat)
    requires p < |Run(EmptyDb, es).records|
    ensures var db := Run(EmptyDb, es);
            var r := db.records[p];
            && (r.state == Applied ==> HasReadBack(r, db.inspections, p, true))
            && (r.state == Conflict ==> HasReadBack(r, db.inspections, p, false))
            && (!Terminal(r.state) ==>
                  forall i :: 0 <= i < |db.inspections| && db.inspections[i].projection == p ==>
                    !db.inspections[i].kind.Observed?)
  {
    var db := Run(EmptyDb, es);
    EvidenceOf(db.records, db.inspections, p);
  }

  lemma EvidenceOf(records: seq<Record>, inspections: seq<InspectionRow>, p: nat)
    requires EvidencesOk(records, inspections) && p < |records|
    ensures var r := records[p];
            && (r.state == Applied ==> HasReadBack(r, inspections, p, true))
            && (r.state == Conflict ==> HasReadBack(r, inspections, p, false))
            && (!Terminal(r.state) ==>
                  forall i :: 0 <= i < |inspections| && inspections[i].projection == p ==> !inspections[i].kind.Observed?)
  {
    var r := records[p];
    assert EvidenceOk(r, inspections, p);
    if Terminal(r.state) {
      var i :| 0 <= i < |inspections| && Evidence(r, inspections[i], p);
      assert ReadBackOf(r, inspections[i], p, r.state == Applied);
    }
  }

  /** The attempts of a record are numbered exactly 1..k, each number once and in
   *  row order, and the current attempt is number k. */
  lemma AttemptNumbersOfEveryRun(es: seq<Event>, p: nat)
    requires p < |Run(EmptyDb, es).records|
    ensures var db := Run(EmptyDb, es);
            var k := CountAttempts(db.attempts, p);
            && (forall n :: 1 <= n <= k ==> Numbered(db.attempts, p, n))
            && (forall i :: 0 <= i < |db.attempts| && db.attempts[i].projection == p ==> 1 <= db.attempts[i].number <= k)
            && (forall i, j :: 0 <= i < j < |db.attempts| && db.attempts[i].projection == p && db.attempts[j].projection == p
                  ==> db.attempts[i].number < db.attempts[j].number)
            && (db.records[p].current.Some? ==>
                  db.records[p].current.value < |db.attempts| && db.attempts[db.records[p].current.value].number == k)
  {
    var db := Run(EmptyDb, es);
    assert CurrentOk(db.records[p], db.attempts, p);
    CurrentIsLastNumber(db.records[p], db.attempts, db.operations, p);
    NumbersExact(db.attempts, db.operations, p);
  }

  lemma CurrentIsLastNumber(r: Record, attempts: seq<AttemptRow>, operations: map<OperationId, Operation>, p: nat)
    requires CurrentOk(r, attempts, p) && AttemptsOk(operations, attempts)
    ensures r.current.None? <==> CountAttempts(attempts, p) == 0
    ensures r.current.Some? ==> attempts[r.current.value].number == CountAttempts(attempts, p)
  {
    match r.current
    case None => CountZero(attempts, p);
    case Some(a) =>
      CountRest(attempts, p, a + 1);
      CountUpTo(attempts, p, a);
  }

  lemma NumbersExact(attempts: seq<AttemptRow>, operations: map<OperationId, Operation>, p: nat)
    requires AttemptsOk(operations, attempts)
    ensures var k := CountAttempts(attempts, p);
            && (forall n :: 1 <= n <= k ==> Numbered(attempts, p, n))
            && (forall i :: 0 <= i < |attempts| && attempts[i].projection == p ==> 1 <= attempts[i].number <= k)
            && (forall i, j :: 0 <= i < j < |attempts| && attempts[i].projection == p && attempts[j].projection == p
                  ==> attempts[i].number < attempts[j].number)
  {
    var k := CountAttempts(attempts, p);
    forall n | 1 <= n <= k ensures Numbered(attempts, p, n) {
      var i := NthAttempt(attempts, p, n);
    }
    forall i | 0 <= i < |attempts| && attempts[i].projection == p ensures 1 <= attempts[i].number <= k {
      CountUpTo(attempts, p, i);
      CountGrows(attempts, p, i + 1, |attempts|);
      assert attempts[..|attempts|] == attempts;
    }
    forall i, j | 0 <= i < j < |attempts| && attempts[i].projection == p && attempts[j].projection == p
      ensures attempts[i].number < attempts[j].number
    {
      CountUpTo(attempts, p, i);
      CountGrows(attempts, p, i + 1, j);
    }
  }

  /** Some attempt of `p` has this number. */
  ghost predicate Numbered(attempts: seq<AttemptRow>, p: nat, n: nat) {
    exists i :: 0 <= i < |attempts| && attempts[i].projection == p && attempts[i].number == n
  }

  lemma CountUpTo(attempts: seq<AttemptRow>, p: nat, i: nat)
    requires i < |attempts| && attempts[i].projection == p
    ensures CountAttempts(attempts[..i + 1], p) == CountAttempts(attempts[..i], p) + 1
  {
    assert attempts[..i + 1][..i] == attempts[..i];
  }

  lemma {:induction false} CountGrows(attempts: seq<AttemptRow>, p: nat, i: nat, j: nat)
    requires i <= j <= |attempts|
    ensures CountAttempts(attempts[..i], p) <= CountAttempts(attempts[..j], p)
    decreases j
  {
    if i < j {
      assert attempts[..j][..j - 1] == attempts[..j - 1];
      CountGrows(attempts, p, i, j - 1);
    }
  }

  lemma {:induction false} CountRest(attempts: seq<AttemptRow>, p: nat, from: nat)
    requires from <= |attempts|
    requires forall i :: from <= i < |attempts| ==> attempts[i].projection != p
    ensures CountAttempts(attempts, p) == CountAttempts(attempts[..from], p)
  {
    if from < |attempts| {
      assert attempts[..|attempts| - 1][..from] == attempts[..from];
      CountRest(attempts[..|attempts| - 1], p, from);
    } else {
      assert attempts[..from] == attempts;
    }
  }

  /** The n-th attempt of a projection, counting its rows. */
  lemma {:induction false} NthAttempt(attempts: seq<AttemptRow>, p: nat, n: nat) returns (i: nat)
    requires 1 <= n <= CountAttempts(attempts, p)
    ensures i < |attempts| && attempts[i].projection == p && CountAttempts(attempts[..i], p) + 1 == n
  {
    var last := |attempts| - 1;
    if attempts[last].projection == p && CountAttempts(attempts[..last], p) + 1 == n {
      i := last;
    } else {
      i := NthAttempt(attempts[..last], p, n);
      assert attempts[..last][..i] == attempts[..i];
    }
  }

  // ------------------------------------------------------ nothing is rewritten

  /** A later state of one record: same tuple, and settled for ever once settled. */
  predicate Later(r: Record, r2: Record) {
    && r2.tuple == r.tuple && r2.persistedAt == r.persistedAt
    && r.revision <= r2.revision
    && (Terminal(r.state) ==> r2 == r)
  }

  ghost predicate Extends(db: Db, d2: Db) {
    && |db.records| <= |d2.records|
    && (forall p :: 0 <= p < |db.records| ==> Later(db.records[p], d2.records[p]))
    && (forall op :: op in db.operations ==> op in d2.operations && d2.operations[op] == db.operations[op])
    && db.attempts <= d2.attempts
    && db.inspections <= d2.inspections
    && db.audit <= d2.audit
    && (forall d :: d in db.generations ==> d in d2.generations && db.generations[d] <= d2.generations[d])
  }

  lemma ExtendsItself(db: Db)
    ensures Extends(db, db)
  {
  }

  lemma OperationExtends(db: Db, sub: Submission, p: nat, now: nat)
    requires sub.operation !in db.operations
    ensures Extends(db, WithOperation(db, sub, p, now))
  {
  }

  lemma ReservationExtends(db: Db, sub: Submission, now: nat)
    requires sub.operation !in db.operations && sub.tuple.device in db.devices
    requires sub.tuple.device in db.generations && db.generations[sub.tuple.device] == sub.tuple.generation
    ensures Extends(db, WithReservation(db, sub, now))
  {
  }

  lemma AttemptedExtends(db: Db, op: OperationId, p: nat, now: nat)
    requires p < |db.records| && RecordShape(db.records[p]) && !Terminal(db.records[p].state)
    ensures Extends(db, WithAttempt(db, op, p, now))
  {
  }

  lemma InspectionExtends(db: Db, op: OperationId, p: nat, a: nat, inspection: Inspection, now: nat)
    requires p < |db.records| && a < |db.attempts| && db.records[p].tuple.device in db.devices
    requires RecordShape(db.records[p]) && !Terminal(db.records[p].state)
    ensures Extends(db, Inspect(db, op, p, a, inspection, now).0)
  {
    hide ClockCovers, Verdict;
  }

  lemma ReserveExtends(db: Db, sub: Submission, now: nat)
    requires Linked(db)
    ensures Extends(db, Reserve(db, sub, now).0)
  {
    ExtendsItself(db);
    hide Extends, WithReservation, WithOperation, Linked, FindRecord;
    if sub.operation !in db.operations {
      match FindRecord(db.records, sub.tuple.device, sub.tuple.generation)
      case Some(p) => OperationExtends(db, sub, p, now);
      case None =>
        if sub.tuple.device in db.devices && sub.tuple.device in db.generations
           && db.generations[sub.tuple.device] == sub.tuple.generation
        { ReservationExtends(db, sub, now); }
    }
  }

  lemma AttemptExtends(
    db: Db, op: OperationId, device: DeviceId, generation: Generation, expected: nat, now: nat)
    requires Linked(db) && RecordsOk(db.records, db.devices)
    ensures Extends(db, Attempt(db, op, device, generation, expected, now).0)
  {
    ExtendsItself(db);
    if op in db.operations {
      var p := db.operations[op].projection;
      assert RecordShape(db.records[p]);
      if !Terminal(db.records[p].state) { AttemptedExtends(db, op, p, now); }
    }
    hide Extends, WithAttempt, Linked, RecordsOk;
  }

  lemma RecoverExtends(
    db: Db, op: OperationId, device: DeviceId, generation: Generation, expected: nat,
    inspection: Inspection, now: nat)
    requires Linked(db) && RecordsOk(db.records, db.devices)
    ensures Extends(db, Recover(db, op, device, generation, expected, inspection, now).0)
  {
    ExtendsItself(db);
    if op in db.operations {
      var p := db.operations[op].projection;
      assert RecordShape(db.records[p]);
      if !Terminal(db.records[p].state) && db.records[p].current.Some? {
        InspectionExtends(db, op, p, db.records[p].current.value, inspection, now);
      }
    }
    hide Extends, Inspect, Linked, RecordsOk;
  }

  lemma StepExtends(db: Db, e: Event)
    requires Inv(db)
    ensures Extends(db, Step(db, e))
  {
    InvLinked(db);
    match e
    case ReserveEvent(sub, now) => ReserveExtends(db, sub, now);
    case AttemptEvent(op, d, g, rev, now) => AttemptExtends(db, op, d, g, rev, now);
    case RecoverEvent(op, d, g, rev, inspection, now) => RecoverExtends(db, op, d, g, rev, inspection, now);
    case RegisterEvent(d, n, g, s) =>
    case BindingsEvent(active) =>
  }

  lemma ExtendsTransitive(a: Db, b: Db, c: Db)
    requires Extends(a, b) && Extends(b, c)
    ensures Extends(a, c)
  {
    forall p | 0 <= p < |a.records| ensures Later(a.records[p], c.records[p]) {
      assert Later(a.records[p], b.records[p]) && Later(b.records[p], c.records[p]);
    }
  }

  /** No event of any run rewrites a settled record, a tuple, an operation, or a
   *  row of an append-only table. */
  lemma {:induction false} RunExtends(db: Db, es: seq<Event>)
    requires Inv(db)
    ensures Extends(db, Run(db, es))
    decreases |es|
  {
    if es == [] {
      forall p | 0 <= p < |db.records| ensures Later(db.records[p], db.records[p]) {}
    } else {
      StepKeeps(db, es[0]);
      StepExtends(db, es[0]);
      RunExtends(Step(db, es[0]), es[1..]);
      ExtendsTransitive(db, Step(db, es[0]), Run(db, es));
    }
  }

  // --------------------------------------------------------------- exact replay

  lemma AcceptedIsRecorded(db: Db, sub: Submission, now: nat)
    requires Linked(db) && OperationsOk(db.records, db.operations)
    requires Reserve(db, sub, now).1.Ok? && !Reserve(db, sub, now).1.value.Refused?
    ensures var (d1, answer) := Reserve(db, sub, now);
            && answer.value.view.tuple == sub.tuple
            && sub.operation in d1.operations && d1.operations[sub.operation].tuple == sub.tuple
            && d1.operations[sub.operation].projection == answer.value.view.projection
            && sub.tuple.generation <= I64_MAX && sub.tuple.binding.generation <= I64_MAX
  {
  }

  lemma RecordedIsReplayed(db: Db, sub: Submission, now: nat)
    requires Linked(db) && sub.operation in db.operations
    requires db.operations[sub.operation].tuple == sub.tuple
    requires sub.tuple.generation <= I64_MAX && sub.tuple.binding.generation <= I64_MAX
    ensures Reserve(db, sub, now) ==
            (db, Ok(Replayed(ViewOf(db, db.operations[sub.operation].projection))))
  {
  }

  /** Repeating an accepted submission, at any later point of any run, changes
   *  nothing and answers with the same projection. */
  lemma ReplayForEver(db: Db, sub: Submission, now: nat, es: seq<Event>, later: nat)
    requires Inv(db) && Linked(db)
    requires Reserve(db, sub, now).1.Ok? && !Reserve(db, sub, now).1.value.Refused?
    ensures Inv(Reserve(db, sub, now).0)
    ensures var view := Reserve(db, sub, now).1.value.view;
            var d2 := Run(Reserve(db, sub, now).0, es);
            Linked(d2) && view.projection < |d2.records| && view.tuple == sub.tuple
            && Reserve(d2, sub, later) == (d2, Ok(Replayed(ViewOf(d2, view.projection))))
  {
    ReserveKeeps(db, sub, now);
    AcceptedIsRecorded(db, sub, now);
    var d1 := Reserve(db, sub, now).0;
    RunExtends(d1, es);
    InvLinked(Run(d1, es));
    RecordedIsReplayed(Run(d1, es), sub, later);
  }

  /** An operation ID reused with another tuple is refused for ever. */
  lemma ReuseRefused(db: Db, op: OperationId, t: Tuple, es: seq<Event>, now: nat)
    requires Inv(db) && op in db.operations && db.operations[op].tuple != t
    requires t.generation <= I64_MAX && t.binding.generation <= I64_MAX
    ensures var d2 := Run(db, es);
            Linked(d2) && Reserve(d2, Submission(op, t), now) == (d2, Ok(Refused))
  {
    RunExtends(db, es);
    InvLinked(Run(db, es));
  }

  lemma SameKeySameRow(records: seq<Record>, p: nat, q: nat)
    requires UniqueKeys(records) && p < |records| && q < |records|
    requires Keyed(records[p], records[q].tuple.device, records[q].tuple.generation)
    ensures p == q
  {
  }

  /** Two operations reserved for one device and generation carry one tuple, body
   *  included, and name one projection. */
  lemma OneBodyPerGeneration(es: seq<Event>, a: OperationId, b: OperationId)
    requires a in Run(EmptyDb, es).operations && b in Run(EmptyDb, es).operations
    requires var ops := Run(EmptyDb, es).operations;
             ops[a].tuple.device == ops[b].tuple.device && ops[a].tuple.generation == ops[b].tuple.generation
    ensures var ops := Run(EmptyDb, es).operations;
            ops[a].tuple == ops[b].tuple && ops[a].projection == ops[b].projection
  {
    var db := Run(EmptyDb, es);
    var p, q := db.operations[a].projection, db.operations[b].projection;
    SameKeySameRow(db.records, p, q);
  }

  // -------------------------------------------------------- gapless generations

  lemma NextRecord(records: seq<Record>, generations: map<DeviceId, nat>, q: nat)
    requires Gapless(records, generations) && q < |records|
    ensures records[q].tuple.device in generations
    ensures records[q].tuple.generation + 1 < generations[records[q].tuple.device] ==>
              HasRecord(records, records[q].tuple.device, records[q].tuple.generation + 1)
  {
  }

  ghost predicate OnlyRecord(records: seq<Record>, p: nat, d: DeviceId, g: nat)
    requires p < |records|
  {
    Keyed(records[p], d, g) && forall q :: 0 <= q < |records| && Keyed(records[q], d, g) ==> q == p
  }

  lemma TheRecord(records: seq<Record>, d: DeviceId, g: nat) returns (p: nat)
    requires UniqueKeys(records) && HasRecord(records, d, g)
    ensures p < |records| && OnlyRecord(records, p, d, g)
  {
    p :| 0 <= p < |records| && Keyed(records[p], d, g);
    forall q | 0 <= q < |records| && Keyed(records[q], d, g) ensures q == p {
      SameKeySameRow(records, q, p);
    }
  }

  /** From the first generation a device has a record of, up to just below its
   *  counter, each generation has exactly one record. */
  lemma {:induction false} GenerationsContiguous(
    records: seq<Record>, generations: map<DeviceId, nat>, d: DeviceId, first: nat, g: nat) returns (p: nat)
    requires Gapless(records, generations) && UniqueKeys(records) && HasRecord(records, d, first)
    requires d in generations && first <= g < generations[d]
    ensures p < |records| && OnlyRecord(records, p, d, g)
    decreases g
  {
    hide Gapless, UniqueKeys, HasRecord;
    if first < g {
      var q := GenerationsContiguous(records, generations, d, first, g - 1);
      NextRecord(records, generations, q);
    }
    p := TheRecord(records, d, g);
  }

  /** In every reachable store, each generation of a device from its first record
   *  up to just below its counter has exactly one record, none is at or above the
   *  counter, and the three copies of the counter agree. */
  lemma GenerationsOfEveryRun(es: seq<Event>, d: DeviceId, first: nat, g: nat)
    requires d in Run(EmptyDb, es).generations && HasRecord(Run(EmptyDb, es).records, d, first)
    ensures var db := Run(EmptyDb, es);
            && d in db.devices
            && db.generations[d] == db.devices[d].generation == db.devices[d].jsonGeneration
            && first < db.generations[d]
            && (first <= g < db.generations[d] ==>
                  exists p :: 0 <= p < |db.records| && OnlyRecord(db.records, p, d, g))
            && (g >= db.generations[d] ==> !HasRecord(db.records, d, g))
  {
    var db := Run(EmptyDb, es);
    if first <= g < db.generations[d] {
      var p := GenerationsContiguous(db.records, db.generations, d, first, g);
      assert OnlyRecord(db.records, p, d, g);
    }
  }

  /** A submission makes a new record exactly when its operation and its device's
   *  generation are new, the generation is the counter and not the last that fits a
   *  column, the device is in the network, the binding is active, and the device's
   *  status can become pending. It is answered as a replay exactly when its
   *  operation or the record of its key holds the very same tuple. */
  lemma ReservesExactlyWhen(db: Db, sub: Submission, now: nat)
    requires Linked(db) && OperationsOk(db.records, db.operations) && CountersOk(db.generations, db.devices)
    requires sub.tuple.generation <= I64_MAX && sub.tuple.binding.generation <= I64_MAX
    ensures
      var answer := Reserve(db, sub, now).1;
      var t := sub.tuple;
      var key := FindRecord(db.records, t.device, t.generation);
      && (answer.Ok? && answer.value.Reserved? <==>
            && sub.operation !in db.operations && key.None?
            && t.device in db.devices && db.generations[t.device] == t.generation < I64_MAX
            && db.devices[t.device].network == t.network && BindingActive(db, t)
            && db.devices[t.device].jsonStatus != Revoked)
      && (answer.Ok? && answer.value.Replayed? <==>
            if sub.operation in db.operations then db.operations[sub.operation].tuple == t
            else key.Some? && db.records[key.value].tuple == t)
  {
  }

  /** An attempt is recorded exactly for an unsettled projection at the expected
   *  revision whose binding is active, with a clock not before its record. */
  lemma AttemptsExactlyWhen(db: Db, op: OperationId, expected: nat, now: nat)
    requires Linked(db) && RecordsOk(db.records, db.devices) && op in db.operations
    ensures
      var p := db.operations[op].projection;
      var t := db.operations[op].tuple;
      var (d2, answer) := Attempt(db, op, t.device, t.generation, expected, now);
      var r := db.records[p];
      && (answer.Ok? && answer.value.Recorded? <==>
            && !Terminal(r.state) && expected == r.revision && BindingActive(db, r.tuple)
            && (r.state == Desired ==> r.persistedAt <= now))
      && (if answer.Ok? && answer.value.Recorded?
          then |d2.attempts| == |db.attempts| + 1 && d2.records[p].state == Attempted
               && d2.records[p].current == Some(|db.attempts|)
               && d2.attempts[|db.attempts|] == AttemptRow(p, op, CountAttempts(db.attempts, p) + 1, r.revision, now)
          else d2 == db)
  {
    assert RecordShape(db.records[db.operations[op].projection]);
  }

  /** A submission that makes a record moves all three copies of the counter by
   *  exactly one; a replay leaves counters and records as they were, a refusal or an
   *  error the whole store. */
  lemma CounterMovesByOne(db: Db, sub: Submission, now: nat)
    requires Linked(db)
    ensures var (d2, answer) := Reserve(db, sub, now);
            var t := sub.tuple;
            if answer.Ok? && answer.value.Reserved?
            then t.device in db.generations && db.generations[t.device] == t.generation < I64_MAX
                 && d2.generations == db.generations[t.device := t.generation + 1]
                 && t.device in d2.devices
                 && d2.devices[t.device].generation == d2.devices[t.device].jsonGeneration == t.generation + 1
            else d2.generations == db.generations && d2.devices == db.devices && d2.records == db.records
                 && (answer.Err? || answer.value.Refused? ==> d2 == db)
  {
  }

  // ----------------------------------------------------------- device statuses

  predicate Top(r: Record, generations: map<DeviceId, nat>) {
    r.tuple.device in generations && r.tuple.generation + 1 == generations[r.tuple.device]
  }

  /** A device's status is the one its highest generation calls for, and every
   *  lower generation is settled. */
  ghost predicate StatusOk(db: Db) {
    forall p :: 0 <= p < |db.records| ==>
      if Top(db.records[p], db.generations)
      then db.records[p].tuple.device in db.devices
           && db.devices[db.records[p].tuple.device].jsonStatus == StatusFor(db.records[p].state)
      else Terminal(db.records[p].state)
  }

  /** A device's next generation is reserved only when its records are settled. */
  ghost predicate Serialized(db: Db, e: Event) {
    e.ReserveEvent? && e.submission.tuple.device in db.generations
    && e.submission.tuple.generation == db.generations[e.submission.tuple.device] ==>
      forall p :: 0 <= p < |db.records| && db.records[p].tuple.device == e.submission.tuple.device ==>
        Terminal(db.records[p].state)
  }

  ghost predicate SerializedRun(db: Db, es: seq<Event>)
    requires Inv(db)
    decreases |es|
  {
    es == [] || (Serialized(db, es[0]) && (StepKeeps(db, es[0]); SerializedRun(Step(db, es[0]), es[1..])))
  }

  lemma NonterminalIsTop(db: Db, p: nat)
    requires Inv(db) && StatusOk(db) && p < |db.records| && !Terminal(db.records[p].state)
    ensures Top(db.records[p], db.generations)
    ensures db.records[p].tuple.device in db.devices
    ensures db.devices[db.records[p].tuple.device].jsonStatus == Pending
  {
  }

  lemma NewRecordStatus(db: Db, sub: Submission, now: nat)
    requires StatusOk(db) && Gapless(db.records, db.generations)
    requires sub.tuple.device in db.devices && sub.tuple.device in db.generations
    requires db.generations[sub.tuple.device] == sub.tuple.generation
    requires Serialized(db, ReserveEvent(sub, now))
    ensures StatusOk(WithReservation(db, sub, now))
  {
    var d2 := WithReservation(db, sub, now);
    forall p | 0 <= p < |db.records| && db.records[p].tuple.device != sub.tuple.device
      ensures Top(db.records[p], db.generations) == Top(d2.records[p], d2.generations)
    {}
  }

  lemma ReserveKeepsStatus(db: Db, sub: Submission, now: nat)
    requires Linked(db) && StatusOk(db) && Gapless(db.records, db.generations)
    requires Serialized(db, ReserveEvent(sub, now))
    ensures StatusOk(Reserve(db, sub, now).0)
  {
    var d2 := Reserve(db, sub, now).0;
    if |d2.records| > |db.records| { NewRecordStatus(db, sub, now); }
  }

  lemma AttemptKeepsStatus(
    db: Db, op: OperationId, device: DeviceId, generation: Generation, expected: nat, now: nat)
    requires Inv(db) && Linked(db) && StatusOk(db)
    ensures StatusOk(Attempt(db, op, device, generation, expected, now).0)
  {
    var d2 := Attempt(db, op, device, generation, expected, now).0;
    if d2 != db {
      var p := db.operations[op].projection;
      NonterminalIsTop(db, p);
      forall q | 0 <= q < |d2.records|
        ensures if Top(d2.records[q], d2.generations)
                then d2.devices[d2.records[q].tuple.device].jsonStatus == StatusFor(d2.records[q].state)
                else Terminal(d2.records[q].state)
      {
        assert Top(d2.records[q], d2.generations) == Top(db.records[q], db.generations);
      }
    }
  }

  lemma SettlementKeepsStatus(db: Db, op: OperationId, p: nat, verdict: State, now: nat)
    requires StatusOk(db) && UniqueKeys(db.records) && Terminal(verdict)
    requires p < |db.records| && !Terminal(db.records[p].state) && db.records[p].tuple.device in db.devices
    ensures StatusOk(WithSettlement(db, op, p, verdict, now))
  {
    var d2 := WithSettlement(db, op, p, verdict, now);
    forall q | 0 <= q < |d2.records|
      ensures if Top(d2.records[q], d2.generations)
              then d2.devices[d2.records[q].tuple.device].jsonStatus == StatusFor(d2.records[q].state)
              else Terminal(d2.records[q].state)
    {
      assert Top(d2.records[q], d2.generations) == Top(db.records[q], db.generations);
      if Top(db.records[q], db.generations) && db.records[q].tuple.device == db.records[p].tuple.device {
        SameKeySameRow(db.records, p, q);
      }
    }
  }

  lemma RecoverKeepsStatus(
    db: Db, op: OperationId, device: DeviceId, generation: Generation, expected: nat,
    inspection: Inspection, now: nat)
    requires Linked(db) && StatusOk(db) && UniqueKeys(db.records)
    ensures StatusOk(Recover(db, op, device, generation, expected, inspection, now).0)
  {
    var d2 := Recover(db, op, device, generation, expected, inspection, now).0;
    if d2.records != db.records {
      var p := db.operations[op].projection;
      var r := db.records[p];
      SettlementKeepsStatus(WithInspection(db, op, p, r.current.value, inspection, now),
                            op, p, Verdict(r.tuple, inspection.body), now);
    }
  }

  lemma RegisterKeepsStatus(db: Db, d: DeviceId, n: NetworkId, g: Generation, s: ProjectionStatus)
    requires StatusOk(db) && Gapless(db.records, db.generations)
    ensures StatusOk(Register(db, d, n, g, s))
  {
    var d2 := Register(db, d, n, g, s);
    forall p | 0 <= p < |db.records| ensures Top(db.records[p], d2.generations) == Top(db.records[p], db.generations) {
      assert db.records[p].tuple.device in db.generations;
    }
  }

  lemma InvParts(db: Db)
    requires Inv(db)
    ensures Linked(db) && Gapless(db.records, db.generations) && UniqueKeys(db.records)
  {
    InvLinked(db);
  }

  lemma StepKeepsStatus(db: Db, e: Event)
    requires Inv(db) && StatusOk(db) && Serialized(db, e)
    ensures StatusOk(Step(db, e))
  {
    InvParts(db);
    hide Inv, Linked, Gapless, UniqueKeys, Reserve, Attempt, Recover, Register, Serialized;
    match e
    case ReserveEvent(sub, now) => ReserveKeepsStatus(db, sub, now);
    case AttemptEvent(op, d, g, rev, now) => AttemptKeepsStatus(db, op, d, g, rev, now);
    case RecoverEvent(op, d, g, rev, inspection, now) =>
      RecoverKeepsStatus(db, op, d, g, rev, inspection, now);
    case RegisterEvent(d, n, g, s) => RegisterKeepsStatus(db, d, n, g, s);
    case BindingsEvent(active) =>
  }

  /** In every serialized run a device's status is the one its highest record
   *  calls for. */
  lemma {:induction false} StatusOfEverySerializedRun(db: Db, es: seq<Event>)
    requires Inv(db) && StatusOk(db) && SerializedRun(db, es)
    ensures StatusOk(Run(db, es))
    decreases |es|
  {
    if es != [] {
      StepKeeps(db, es[0]);
      StepKeepsStatus(db, es[0]);
      StatusOfEverySerializedRun(Step(db, es[0]), es[1..]);
    }
  }

  /** Recovery settles an attempted projection exactly when the operation made its
   *  current attempt, the clock has not stepped back behind an earlier inspection
   *  of that attempt or behind the record, and the device's status admits it. */
  lemma RecoverSettlesExactlyWhen(db: Db, op: OperationId, body: Body, now: nat)
    requires Inv(db) && Linked(db) && op in db.operations
    requires db.records[db.operations[op].projection].state == Attempted
    ensures
      var p := db.operations[op].projection;
      var r := db.records[p];
      var a := r.current.value;
      var (d2, answer) := Recover(db, op, r.tuple.device, r.tuple.generation, 2, Observed(body), now);
      var status := db.devices[r.tuple.device].jsonStatus;
      && (answer.Ok? <==>
            && db.attempts[a].operation == op && ClockCovers(db, a, now) && r.persistedAt <= now
            && (status == Pending || status == StatusFor(Verdict(r.tuple, body))))
      && (if answer.Ok?
          then d2.records[p].state == (if body == r.tuple.body && Sha256(body) == r.tuple.hash then Applied else Conflict)
          else d2 == db)
  {
    var p := db.operations[op].projection;
    AttemptedFacts(db, op);
    hide Inv;
    RecoveryExactlyWhen(db, op, body, now);
  }

  lemma AttemptedFacts(db: Db, op: OperationId)
    requires Inv(db) && op in db.operations && db.operations[op].projection < |db.records|
    requires db.records[db.operations[op].projection].state == Attempted
    ensures var r := db.records[db.operations[op].projection];
            r.current.Some? && r.revision == 2 && db.operations[op].tuple == r.tuple
  {
    assert RecordShape(db.records[db.operations[op].projection]);
  }

  lemma RecoveryExactlyWhen(db: Db, op: OperationId, body: Body, now: nat)
    requires Linked(db) && op in db.operations
    requires var r := db.records[db.operations[op].projection];
             r.state == Attempted && r.current.Some? && r.revision == 2 && db.operations[op].tuple == r.tuple
    ensures
      var p := db.operations[op].projection;
      var r := db.records[p];
      var a := r.current.value;
      var (d2, answer) := Recover(db, op, r.tuple.device, r.tuple.generation, 2, Observed(body), now);
      var status := db.devices[r.tuple.device].jsonStatus;
      && (answer.Ok? <==>
            && db.attempts[a].operation == op && ClockCovers(db, a, now) && r.persistedAt <= now
            && (status == Pending || status == StatusFor(Verdict(r.tuple, body))))
      && (if answer.Ok? then d2.records[p].state == Verdict(r.tuple, body) else d2 == db)
  {
    hide ClockCovers;
  }

  /** In a serialized run the status never refuses a recovery. */
  lemma SerializedRecoveryAdmitted(es: seq<Event>, p: nat, body: Body)
    requires SerializedRun(EmptyDb, es) && p < |Run(EmptyDb, es).records|
    requires Run(EmptyDb, es).records[p].state == Attempted
    ensures var db := Run(EmptyDb, es);
            db.records[p].tuple.device in db.devices
            && MaySet(db.devices[db.records[p].tuple.device].jsonStatus,
                      StatusFor(Verdict(db.records[p].tuple, body)))
  {
    StatusOfEverySerializedRun(EmptyDb, es);
    NonterminalIsTop(Run(EmptyDb, es), p);
  }
}
