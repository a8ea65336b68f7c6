/** Safety and progress of reconciliation over whole runs with crashes. */
module FleetReconcilerRuns {
  import opened Options
  import opened FleetLedger
  import opened FleetLedgerInvariant
  import opened FleetReconciler
  import FleetLedgerRuns
  import FleetClient

  /** The owner starts with an empty ledger beside an arbitrary Fleet. */
  function Initial(fleet: map<Identity, Body>, call: Call): World {
    World(EmptyDb, fleet, call, Idle, [], 0)
  }

  function Run(w: World, es: seq<WorldEvent>): (r: World)
    requires Linked(w.db)
    ensures Linked(r.db)
    decreases |es|
  {
    if es == [] then w else Run(Next(w, es[0]), es[1..])
  }

  lemma {:induction false} RunSafe(w: World, es: seq<WorldEvent>)
    requires Safe(w)
    ensures Safe(Run(w, es))
    decreases |es|
  {
    if es != [] {
      StepSafe(w, es[0]);
      RunSafe(Next(w, es[0]), es[1..]);
    }
  }

  // ------------------------------------------------------------ no blind retry

  /** Attempts number n and n+1 of one projection. */
  predicate Consecutive(a: AttemptRow, b: AttemptRow) {
    a.projection == b.projection && b.number == a.number + 1
  }

  /** No blind retry, over every run with crashes and lost replies: every apply
   *  that may have reached Fleet has its own attempt row, a call sends at most
   *  one, and attempt n+1 of a projection exists only if a `missing` inspection
   *  of attempt n is on record. */
  lemma NoBlindRetry(fleet: map<Identity, Body>, call: Call, es: seq<WorldEvent>)
    ensures var w := Run(Initial(fleet, call), es);
            && (forall i :: 0 <= i < |w.sends| ==> w.sends[i] < |w.db.attempts|)
            && (forall i, j :: 0 <= i < j < |w.sends| ==> w.sends[i] != w.sends[j])
            && w.sentByCall <= 1
            && RetriesFollowMissing(w.db)
  {
    var w := Run(Initial(fleet, call), es);
    RunSafe(Initial(fleet, call), es);
    SupersededByNumber(w.db);
  }

  ghost predicate RetriesFollowMissing(db: Db) {
    forall i, j :: 0 <= i < |db.attempts| && 0 <= j < |db.attempts| ==>
      (Consecutive(db.attempts[i], db.attempts[j]) ==> MissingRecorded(db.inspections, i))
  }

  lemma SupersededByNumber(db: Db)
    requires Superseded(db) && AttemptsOk(db.operations, db.attempts)
    ensures RetriesFollowMissing(db)
  {
    forall i, j | 0 <= i < |db.attempts| && 0 <= j < |db.attempts| && Consecutive(db.attempts[i], db.attempts[j])
      ensures MissingRecorded(db.inspections, i)
    {
      FleetLedgerRuns.NumbersExact(db.attempts, db.operations, db.attempts[i].projection);
      assert i < j;
    }
  }

  /** When an apply may reach Fleet, its attempt is already stored, is the current
   *  attempt of a record that holds the very tuple sent, and no earlier apply used
   *  it. The step itself stores nothing. */
  lemma AttemptStoredBeforeApply(w: World, e: WorldEvent)
    requires Safe(w) && Next(w, e).sends != w.sends
    ensures Next(w, e).db == w.db && |Next(w, e).sends| == |w.sends| + 1
    ensures var a := Next(w, e).sends[|w.sends|];
            && a < |w.db.attempts| && a !in w.sends
            && var r := w.db.records[w.db.attempts[a].projection];
               r.state == Attempted && r.current == Some(a) && r.tuple == w.call.tuple
  {
    ApplyUsesCurrent(w, e);
  }

  lemma ApplyUsesCurrent(w: World, e: WorldEvent)
    requires Linked(w.db) && PhaseOk(w) && CurrentsOk(w.db.records, w.db.attempts) && Next(w, e).sends != w.sends
    requires OperationsOk(w.db.records, w.db.operations)
    ensures Next(w, e).db == w.db && |Next(w, e).sends| == |w.sends| + 1
    ensures var a := Next(w, e).sends[|w.sends|];
            && a < |w.db.attempts| && a !in w.sends
            && var r := w.db.records[w.db.attempts[a].projection];
               r.state == Attempted && r.current == Some(a) && r.tuple == w.call.tuple
  {
    assert e.ApplyNow? && w.phase.NeedApply?;
    var p := w.phase.view.projection;
    assert CurrentOk(w.db.records[p], w.db.attempts, p);
  }

  /** When a further attempt of a projection is stored, every earlier one has
   *  already been read back as missing. */
  lemma MissingStoredBeforeRetry(w: World, e: WorldEvent, i: nat)
    requires Safe(w) && |Next(w, e).db.attempts| > |w.db.attempts|
    requires i < |w.db.attempts|
    requires Next(w, e).db.attempts[|w.db.attempts|].projection == w.db.attempts[i].projection
    ensures MissingRecorded(w.db.inspections, i)
  {
    hide Safe, Inv;
    SafeParts(w);
    OnlyAttemptsAppend(w, e);
    RetryFollowsMissing(w, e, i);
  }

  lemma SafeParts(w: World)
    requires Safe(w)
    ensures Linked(w.db) && Rest(w) && OperationsOk(w.db.records, w.db.operations)
    ensures CurrentsOk(w.db.records, w.db.attempts)
    ensures forall p :: 0 <= p < |w.db.records| ==> RecordShape(w.db.records[p])
  {
  }

  lemma RetryFollowsMissing(w: World, e: WorldEvent, i: nat)
    requires Linked(w.db) && Rest(w) && OperationsOk(w.db.records, w.db.operations)
    requires CurrentsOk(w.db.records, w.db.attempts) && e.AttemptNow? && w.phase.NeedAttempt?
    requires forall p :: 0 <= p < |w.db.records| ==> RecordShape(w.db.records[p])
    requires |Next(w, e).db.attempts| > |w.db.attempts| && i < |w.db.attempts|
    requires Next(w, e).db.attempts[|w.db.attempts|].projection == w.db.attempts[i].projection
    ensures MissingRecorded(w.db.inspections, i)
  {
    var p := w.phase.view.projection;
    AttemptEffects(w.db, w.call.operation, w.call.tuple, p, e.now);
    hide Linked, Superseded, SendsOk;
    AttemptsOfRetry(w.db, p, i);
  }

  lemma OnlyAttemptsAppend(w: World, e: WorldEvent)
    requires Linked(w.db) && |Next(w, e).db.attempts| > |w.db.attempts|
    ensures e.AttemptNow? && w.phase.NeedAttempt?
  {
  }

  lemma AttemptsOfRetry(db: Db, p: nat, i: nat)
    requires Superseded(db) && p < |db.records| && CurrentOk(db.records[p], db.attempts, p)
    requires i < |db.attempts| && db.attempts[i].projection == p
    requires db.records[p].current.Some? ==> MissingRecorded(db.inspections, db.records[p].current.value)
    ensures MissingRecorded(db.inspections, i)
  {
    var a := db.records[p].current.value;
    if i < a { assert db.attempts[i].projection == db.attempts[a].projection; }
  }

  /** Settled records, tuples and append-only rows survive every run with crashes. */
  lemma {:induction false} RunExtends(w: World, es: seq<WorldEvent>)
    requires Safe(w)
    ensures FleetLedgerRuns.Extends(w.db, Run(w, es).db)
    decreases |es|
  {
    if es == [] {
      FleetLedgerRuns.RunExtends(w.db, []);
    } else {
      StepSafe(w, es[0]);
      StepOnLedger(w, es[0]);
      var next := Next(w, es[0]);
      if LedgerEvent(w, es[0]).Some? {
        FleetLedgerRuns.StepExtends(w.db, LedgerEvent(w, es[0]).value);
      } else {
        FleetLedgerRuns.RunExtends(w.db, []);
      }
      RunExtends(next, es[1..]);
      FleetLedgerRuns.ExtendsTransitive(w.db, next.db, Run(w, es).db);
    }
  }

  // ------------------------------------------------------------------ progress

  /** What the environment decides during one reconciliation: six clock readings,
   *  the fate of the apply, and what Fleet holds after it. */
  datatype Answers = Answers(
    capabilities: CapabilitiesReply,
    first: FleetClient.Course,
    apply: FleetClient.Course,
    held: Option<Body>,
    second: FleetClient.Course,
    reservedAt: nat,
    firstRecoveredAt: nat,
    attemptedAt: nat,
    recoveredAt: nat)

  /** The actions of one call in program order. Those a path does not take do not
   *  fit its phase and so do nothing. */
  function Reconcile(w: World, call: Call, a: Answers): World
    requires Linked(w.db)
  {
    Readback(Dispatch(InspectEarlier(Opening(w, call, a), a), a), a)
  }

  /** The reservation and the capability check. */
  function Opening(w: World, call: Call, a: Answers): (r: World)
    requires Linked(w.db)
    ensures Linked(r.db)
  {
    Next(Next(w, Start(call, a.reservedAt)), CapabilitiesArrive(a.capabilities))
  }

  /** The read-back of an earlier attempt. */
  function InspectEarlier(w: World, a: Answers): (r: World)
    requires Linked(w.db)
    ensures Linked(r.db)
  {
    Next(Next(w, InspectionArrives(a.first)), RecoverNow(a.firstRecoveredAt))
  }

  /** The durable attempt, then the apply. */
  function Dispatch(w: World, a: Answers): (r: World)
    requires Linked(w.db)
    ensures Linked(r.db)
  {
    Next(Next(w, AttemptNow(a.attemptedAt)), ApplyNow(a.apply, a.held))
  }

  /** The read-back of this call's apply. */
  function Readback(w: World, a: Answers): (r: World)
    requires Linked(w.db)
    ensures Linked(r.db)
  {
    Next(Next(w, InspectionArrives(a.second)), RecoverNow(a.recoveredAt))
  }

  /** Fleet answers every question; the apply reaches it, although its reply may
   *  still be lost; and it installs the desired body on an identity it did not
   *  hold. What it does on an identity it holds is left open. */
  ghost predicate FleetAnswers(w: World, call: Call, a: Answers) {
    && a.capabilities == Complete
    && FleetClient.InspectAnswered(a.first) && FleetClient.InspectAnswered(a.second)
    && FleetClient.MayHaveWritten(a.apply)
    && a.held.Some?
    && (Subject(call.tuple) !in w.fleet ==> a.held.value == call.tuple.body)
  }

  /** The call names a known operation whose projection is not settled yet. */
  ghost predicate Unsettled(w: World, call: Call, p: nat) {
    && (w.phase.Idle? || w.phase.Finished?)
    && call.operation in w.db.operations
    && w.db.operations[call.operation] .projection == p && p < |w.db.records|
    && w.db.operations[call.operation].tuple == call.tuple
    && call.tuple.generation <= I64_MAX && call.tuple.binding.generation <= I64_MAX
    && call.tuple.hash == Sha256(call.tuple.body)
    && !Terminal(w.db.records[p].state)
    && BindingActive(w.db, call.tuple)
  }

  /** No clock reading lies before the record, nor, for the first inspection of an
   *  existing attempt, before an earlier inspection of it. */
  ghost predicate ClockAgrees(db: Db, p: nat, a: Answers)
    requires p < |db.records|
  {
    && db.records[p].persistedAt <= a.firstRecoveredAt
    && db.records[p].persistedAt <= a.attemptedAt
    && db.records[p].persistedAt <= a.recoveredAt
    && (db.records[p].current.Some? ==> ClockCovers(db, db.records[p].current.value, a.firstRecoveredAt))
  }

  lemma OpeningKnown(w: World, call: Call, p: nat, a: Answers)
    requires Linked(w.db) && OperationsOk(w.db.records, w.db.operations)
    requires Unsettled(w, call, p) && a.capabilities == Complete
    ensures var v := ViewOf(w.db, p);
            Opening(w, call, a) == w.(call := call, sentByCall := 0, phase :=
              if v.state == Attempted then NeedInspection(v, true) else NeedAttempt(v, true))
  {
    FleetLedgerRuns.RecordedIsReplayed(w.db, Submission(call.operation, call.tuple), a.reservedAt);
  }

  /** The owner is about to recover or attempt projection `p` for its own call. */
  ghost predicate Working(w: World, p: nat) {
    && p < |w.db.records|
    && w.call.operation in w.db.operations && w.db.operations[w.call.operation].projection == p
    && w.db.records[p].tuple == w.db.operations[w.call.operation].tuple == w.call.tuple
  }

  /** This call's operation made the current attempt, and the clock admits reading
   *  it back. */
  ghost predicate Readable(w: World, p: nat, now: nat)
    requires p < |w.db.records|
  {
    var r := w.db.records[p];
    && r.state == Attempted && r.current.Some? && r.current.value < |w.db.attempts|
    && w.db.attempts[r.current.value].operation == w.call.operation
    && ClockCovers(w.db, r.current.value, now) && r.persistedAt <= now
  }

  ghost predicate StatusPending(w: World, p: nat)
    requires p < |w.db.records|
  {
    w.db.records[p].tuple.device in w.db.devices
    && w.db.devices[w.db.records[p].tuple.device].jsonStatus == Pending
  }

  ghost predicate SettledOn(w: World, p: nat, verdict: State) {
    && p < |w.db.records| && w.db.records[p].state == verdict
    && w.phase == Finished(if verdict == Applied then OutcomeApplied else OutcomeConflict)
  }

  /** A body read back settles the projection. */
  lemma BodySettles(w: World, p: nat, body: Body, retry: bool, now: nat)
    requires Linked(w.db) && Working(w, p) && Readable(w, p, now) && StatusPending(w, p)
    requires w.phase == NeedRecovery(ViewOf(w.db, p), retry, Observed(body))
    ensures SettledOn(Next(w, RecoverNow(now)), p, Verdict(w.call.tuple, body))
  {
  }

  /** Nothing read back moves the owner on to a further attempt. */
  lemma MissingLeadsToAttempt(w: World, p: nat, now: nat)
    requires Linked(w.db) && Working(w, p) && Readable(w, p, now)
    requires w.phase == NeedRecovery(ViewOf(w.db, p), true, Missing)
    ensures Next(w, RecoverNow(now)) ==
            w.(db := WithInspection(w.db, w.call.operation, p, w.db.records[p].current.value, Missing, now),
               phase := NeedAttempt(ViewOf(w.db, p), false))
  {
  }

  /** No inspection row points past the attempts. */
  ghost predicate NoForeignRows(db: Db) {
    forall i :: 0 <= i < |db.inspections| ==> db.inspections[i].attempt < |db.attempts|
  }

  /** From the durable attempt on, the apply and its read-back settle the
   *  projection on what Fleet holds afterwards. */
  lemma DispatchSettles(w: World, a: Answers, p: nat, first: bool)
    requires Linked(w.db) && Working(w, p) && StatusPending(w, p)
    requires w.phase == NeedAttempt(ViewOf(w.db, p), first)
    requires w.db.records[p].revision == (if first then 1 else 2)
    requires w.db.records[p].state == (if first then Desired else Attempted)
    requires BindingActive(w.db, w.call.tuple)
    requires w.db.records[p].persistedAt <= a.attemptedAt && w.db.records[p].persistedAt <= a.recoveredAt
    requires NoForeignRows(w.db)
    requires FleetClient.MayHaveWritten(a.apply) && FleetClient.InspectAnswered(a.second) && a.held.Some?
    ensures SettledOn(Readback(Dispatch(w, a), a), p, Verdict(w.call.tuple, a.held.value))
  {
    AttemptEffects(w.db, w.call.operation, w.call.tuple, p, a.attemptedAt);
    var w1 := Next(w, AttemptNow(a.attemptedAt));
    assert w1.phase == NeedApply(ViewOf(w1.db, p));
    FleetClient.NotSentMeansNotWritten(a.apply);
    var w2 := Next(w1, ApplyNow(a.apply, a.held));
    var w3 := Next(w2, InspectionArrives(a.second));
    assert w3.phase == NeedRecovery(ViewOf(w1.db, p), false, Observed(a.held.value));
    BodySettles(w3, p, a.held.value, false, a.recoveredAt);
  }

  /** An apply leaves the desired body where Fleet already holds it. */
  ghost predicate KeepsDesired(w: World, call: Call, a: Answers) {
    var id := Subject(call.tuple);
    id in w.fleet && w.fleet[id] == call.tuple.body ==> a.held == Some(call.tuple.body)
  }

  ghost predicate HoldsAnother(w: World, call: Call) {
    Subject(call.tuple) in w.fleet && w.fleet[Subject(call.tuple)] != call.tuple.body
  }

  /** Progress after any crash: when Fleet answers and the clock agrees, one call
   *  by the operation that made the current attempt, or by any operation when
   *  there is none yet, settles the projection. It becomes applied when Fleet held
   *  nothing, or the desired body which an apply leaves alone, and a conflict when
   *  it had been attempted and Fleet held any other body. */
  lemma Progress(w: World, call: Call, p: nat, a: Answers)
    requires Safe(w) && FleetLedgerRuns.StatusOk(w.db)
    requires Unsettled(w, call, p) && FleetAnswers(w, call, a) && ClockAgrees(w.db, p, a)
    requires OwnsCurrentAttempt(w.db, call.operation, p)
    ensures
      var w2 := Reconcile(w, call, a);
      var id := Subject(call.tuple);
      var attempted := w.db.records[p].state == Attempted;
      && SettledOn(w2, p, if attempted && id in w.fleet
                          then (if w.fleet[id] == call.tuple.body then Applied else Conflict)
                          else Verdict(call.tuple, a.held.value))
      && (KeepsDesired(w, call, a) && !HoldsAnother(w, call) ==> w2.db.records[p].state == Applied)
      && (attempted && HoldsAnother(w, call) ==> w2.db.records[p].state == Conflict)
  {
    var w1 := Opening(w, call, a);
    OpeningKnown(w, call, p, a);
    FleetLedgerRuns.NonterminalIsTop(w.db, p);
    assert RecordShape(w.db.records[p]) && CurrentOk(w.db.records[p], w.db.attempts, p);
    ProgressFrom(w1, a, p);
  }

  /** Only the operation behind the current attempt can move a projection on. */
  ghost predicate OwnsCurrentAttempt(db: Db, op: OperationId, p: nat)
    requires p < |db.records|
  {
    db.records[p].current.Some? ==>
      db.records[p].current.value < |db.attempts| && db.attempts[db.records[p].current.value].operation == op
  }

  lemma ProgressFrom(w: World, a: Answers, p: nat)
    requires Linked(w.db) && Working(w, p) && StatusPending(w, p) && BindingActive(w.db, w.call.tuple)
    requires NoForeignRows(w.db)
    requires RecordShape(w.db.records[p]) && !Terminal(w.db.records[p].state)
    requires w.phase == (if w.db.records[p].state == Attempted
                         then NeedInspection(ViewOf(w.db, p), true) else NeedAttempt(ViewOf(w.db, p), true))
    requires FleetAnswers(w, w.call, a) && ClockAgrees(w.db, p, a) && OwnsCurrentAttempt(w.db, w.call.operation, p)
    requires w.call.tuple.hash == Sha256(w.call.tuple.body)
    ensures
      var w2 := Readback(Dispatch(InspectEarlier(w, a), a), a);
      var id := Subject(w.call.tuple);
      && SettledOn(w2, p, if w.db.records[p].state == Attempted && id in w.fleet
                          then Verdict(w.call.tuple, w.fleet[id]) else Verdict(w.call.tuple, a.held.value))
  {
    var id := Subject(w.call.tuple);
    hide Linked, Reserve, Attempt, Recover, Inspect;
    if w.db.records[p].state == Desired {
      assert InspectEarlier(w, a) == w;
      DispatchSettles(w, a, p, true);
    } else {
      var w1 := Next(w, InspectionArrives(a.first));
      if id in w.fleet {
        BodySettles(w1, p, w.fleet[id], true, a.firstRecoveredAt);
        var w2 := Next(w1, RecoverNow(a.firstRecoveredAt));
        assert Dispatch(w2, a) == w2 && Readback(w2, a) == w2;
      } else {
        MissingLeadsToAttempt(w1, p, a.firstRecoveredAt);
        var w2 := Next(w1, RecoverNow(a.firstRecoveredAt));
        DispatchSettles(w2, a, p, false);
      }
    }
  }

  // ---------------------------------------------- who can settle a projection

  function PhaseView(ph: Phase): Option<View> {
    match ph
    case Idle => None
    case Finished(_) => None
    case NeedCapabilities(v) => Some(v)
    case NeedInspection(v, _) => Some(v)
    case NeedRecovery(v, _, _) => Some(v)
    case NeedAttempt(v, _) => Some(v)
    case NeedApply(v) => Some(v)
  }

  /** Projection `p` stays at an attempt made by `op` while other operations call:
   *  a call that reaches it gets no further than its inspection. */
  ghost predicate HeldBy(w: World, p: nat, r: Record, op: OperationId) {
    && p < |w.db.records| && w.db.records[p] == r
    && r.state == Attempted && r.current.Some? && r.current.value < |w.db.attempts|
    && w.db.attempts[r.current.value].operation == op
    && (PhaseView(w.phase).Some? ==> w.call.operation != op)
    && (PhaseView(w.phase).Some? && PhaseView(w.phase).value.projection == p ==>
          || w.phase.NeedCapabilities?
          || (w.phase.NeedInspection? && w.phase.retry)
          || (w.phase.NeedRecovery? && w.phase.retry))
  }

  predicate StartsNot(e: WorldEvent, op: OperationId) { e.Start? ==> e.call.operation != op }

  lemma ForeignRecover(db: Db, op: OperationId, t: Tuple, revision: nat, inspection: Inspection, now: nat, p: nat)
    requires Linked(db) && p < |db.records| && db.records[p].state == Attempted && db.records[p].current.Some?
    requires db.attempts[db.records[p].current.value].operation != op
    requires op in db.operations
    ensures var (d2, answer) := Recover(db, op, t.device, t.generation, revision, inspection, now);
            && |d2.records| == |db.records| && d2.records[p] == db.records[p] && d2.attempts == db.attempts
            && (db.operations[op].projection == p ==> answer.Err?)
  {
  }

  lemma HeldStart(w: World, call: Call, now: nat, p: nat, r: Record, op: OperationId)
    requires Linked(w.db) && OperationsOk(w.db.records, w.db.operations)
    requires HeldBy(w, p, r, op) && call.operation != op
    ensures HeldBy(Begin(w, call, now), p, r, op)
  {
    ReserveEffects(w.db, Submission(call.operation, call.tuple), now);
    ReserveKeepsRecord(w.db, Submission(call.operation, call.tuple), now, p);
  }

  lemma HeldRecovery(w: World, now: nat, p: nat, r: Record, op: OperationId)
    requires Linked(w.db) && PhaseOk(w) && HeldBy(w, p, r, op) && w.phase.NeedRecovery?
    ensures HeldBy(Next(w, RecoverNow(now)), p, r, op)
  {
    ForeignRecover(w.db, w.call.operation, w.call.tuple, w.phase.view.revision, w.phase.inspection, now, p);
    RecoveredView(w.db, w.call.operation, w.call.tuple, w.phase.view.revision, w.phase.inspection, now);
  }

  lemma RecoveredView(db: Db, op: OperationId, t: Tuple, revision: nat, inspection: Inspection, now: nat)
    requires Linked(db) && op in db.operations
    ensures var answer := Recover(db, op, t.device, t.generation, revision, inspection, now).1;
            answer.Ok? ==> answer.value.projection == db.operations[op].projection
  {
  }

  lemma HeldAttempt(w: World, now: nat, p: nat, r: Record, op: OperationId)
    requires Linked(w.db) && PhaseOk(w) && HeldBy(w, p, r, op) && w.phase.NeedAttempt?
    requires OperationsOk(w.db.records, w.db.operations)
    ensures HeldBy(Next(w, AttemptNow(now)), p, r, op)
  {
    AttemptEffects(w.db, w.call.operation, w.call.tuple, w.phase.view.projection, now);
  }

  lemma HeldStep(w: World, e: WorldEvent, p: nat, r: Record, op: OperationId)
    requires Linked(w.db) && PhaseOk(w) && OperationsOk(w.db.records, w.db.operations)
    requires HeldBy(w, p, r, op) && StartsNot(e, op)
    ensures HeldBy(Next(w, e), p, r, op)
  {
    hide Reserve, Attempt, Recover, Linked, OperationsOk, ReadBack, Holding, AfterRecovery, AfterAttempt;
    match e
    case Start(call, now) => if w.phase.Idle? || w.phase.Finished? { HeldStart(w, call, now, p, r, op); }
    case RecoverNow(now) => if w.phase.NeedRecovery? { HeldRecovery(w, now, p, r, op); }
    case AttemptNow(now) => if w.phase.NeedAttempt? { HeldAttempt(w, now, p, r, op); }
    case _ =>
  }

  lemma ReserveKeepsRecord(db: Db, sub: Submission, now: nat, p: nat)
    requires Linked(db) && p < |db.records|
    ensures var d2 := Reserve(db, sub, now).0;
            p < |d2.records| && d2.records[p] == db.records[p]
  {
  }

  predicate NeverStarts(es: seq<WorldEvent>, op: OperationId) {
    forall i :: 0 <= i < |es| ==> StartsNot(es[i], op)
  }

  lemma StartsLater(es: seq<WorldEvent>, op: OperationId)
    requires es != [] && NeverStarts(es, op)
    ensures StartsNot(es[0], op) && NeverStarts(es[1..], op)
  {
  }

  lemma HeldSafely(w: World, e: WorldEvent, p: nat, r: Record, op: OperationId)
    requires Safe(w) && HeldBy(w, p, r, op) && StartsNot(e, op)
    ensures HeldBy(Next(w, e), p, r, op)
  {
    hide HeldBy, StartsNot, Next;
    HeldStep(w, e, p, r, op);
  }

  /** As long as the operation behind the current attempt does not call again, no
   *  run of calls by other operations, whatever Fleet answers, moves the
   *  projection: the owner refuses every inspection they would record. */
  lemma {:induction false} ForeignCallsNeverSettle(w: World, es: seq<WorldEvent>, p: nat, r: Record, op: OperationId)
    requires Safe(w) && HeldBy(w, p, r, op) && NeverStarts(es, op)
    ensures HeldBy(Run(w, es), p, r, op)
    decreases |es|
  {
    hide Safe, HeldBy, NeverStarts, StartsNot, Next;
    if es != [] {
      LinkedOfSafe(w);
      StartsLater(es, op);
      StepSafe(w, es[0]);
      HeldSafely(w, es[0], p, r, op);
      ForeignCallsNeverSettle(Next(w, es[0]), es[1..], p, r, op);
    }
  }

  /** One call, with Fleet answering and the clock agreeing, settles a projection
   *  if and only if its operation made the current attempt or there is none. */
  lemma SettlesIffOwner(w: World, call: Call, p: nat, a: Answers)
    requires Safe(w) && FleetLedgerRuns.StatusOk(w.db)
    requires Unsettled(w, call, p) && FleetAnswers(w, call, a) && ClockAgrees(w.db, p, a)
    ensures SettledAt(Reconcile(w, call, a).db, p) <==> OwnsCurrentAttempt(w.db, call.operation, p)
  {
    if OwnsCurrentAttempt(w.db, call.operation, p) {
      Progress(w, call, p, a);
    } else {
      ForeignCallDoesNotSettle(w, call, p, a);
    }
  }

  ghost predicate SettledAt(db: Db, p: nat) { p < |db.records| && Terminal(db.records[p].state) }

  lemma ForeignCallDoesNotSettle(w: World, call: Call, p: nat, a: Answers)
    requires Safe(w) && Unsettled(w, call, p) && !OwnsCurrentAttempt(w.db, call.operation, p)
    ensures !SettledAt(Reconcile(w, call, a).db, p)
  {
    StartsHeld(w, call, p);
    ReconcileIsRun(w, call, a);
    var maker := w.db.attempts[w.db.records[p].current.value].operation;
    ScriptStartsOnce(call, a, maker);
    ForeignCallsNeverSettle(w, Script(call, a), p, w.db.records[p], maker);
  }

  lemma StartsHeld(w: World, call: Call, p: nat)
    requires Safe(w) && Unsettled(w, call, p) && !OwnsCurrentAttempt(w.db, call.operation, p)
    ensures w.db.records[p].current.Some? && w.db.records[p].current.value < |w.db.attempts|
    ensures var maker := w.db.attempts[w.db.records[p].current.value].operation;
            HeldBy(w, p, w.db.records[p], maker) && maker != call.operation
  {
    hide Safe;
    SafeFacts(w, p);
  }

  lemma SafeFacts(w: World, p: nat)
    requires Safe(w) && p < |w.db.records|
    ensures RecordShape(w.db.records[p]) && CurrentOk(w.db.records[p], w.db.attempts, p)
    ensures w.db.records[p].current.Some? ==> w.db.records[p].current.value < |w.db.attempts|
  {
    HeldFacts(w.db, p);
  }

  lemma HeldFacts(db: Db, p: nat)
    requires RecordsOk(db.records, db.devices) && CurrentsOk(db.records, db.attempts) && p < |db.records|
    ensures RecordShape(db.records[p]) && CurrentOk(db.records[p], db.attempts, p)
  {
  }

  // --------------------------------------------------- over reachable worlds

  /** A call reserves a device's next generation only when its records are settled. */
  ghost predicate SerializedStep(w: World, e: WorldEvent) {
    LedgerEvent(w, e).Some? ==> FleetLedgerRuns.Serialized(w.db, LedgerEvent(w, e).value)
  }

  ghost predicate SerializedWorldRun(w: World, es: seq<WorldEvent>)
    requires Linked(w.db)
    decreases |es|
  {
    es == [] || (SerializedStep(w, es[0]) && SerializedWorldRun(Next(w, es[0]), es[1..]))
  }

  lemma StepKeepsWorldStatus(w: World, e: WorldEvent)
    requires Safe(w) && FleetLedgerRuns.StatusOk(w.db) && SerializedStep(w, e)
    ensures FleetLedgerRuns.StatusOk(Next(w, e).db)
  {
    StepOnLedger(w, e);
    hide Next, FleetLedgerRuns.StatusOk, FleetLedgerRuns.Serialized, Inv, Linked, Rest;
    if LedgerEvent(w, e).Some? { FleetLedgerRuns.StepKeepsStatus(w.db, LedgerEvent(w, e).value); }
  }

  /** In every serialized run with crashes, every device's status is the one its
   *  highest record calls for. */
  lemma {:induction false} StatusOfEverySerializedWorldRun(w: World, es: seq<WorldEvent>)
    requires Safe(w) && FleetLedgerRuns.StatusOk(w.db) && SerializedWorldRun(w, es)
    ensures Safe(Run(w, es)) && FleetLedgerRuns.StatusOk(Run(w, es).db)
    decreases |es|
  {
    hide FleetLedgerRuns.StatusOk, Safe, Next, SerializedStep;
    if es != [] {
      LinkedOfSafe(w);
      StepSafe(w, es[0]);
      StepKeepsWorldStatus(w, es[0]);
      StatusOfEverySerializedWorldRun(Next(w, es[0]), es[1..]);
    }
  }

  lemma LinkedOfSafe(w: World)
    requires Safe(w)
    ensures Linked(w.db)
  {
  }

  /** A world that some serialized run reaches from the empty ledger beside any Fleet. */
  ghost predicate ReachedBy(w: World, fleet: map<Identity, Body>, first: Call, es: seq<WorldEvent>) {
    Linked(EmptyDb) && SerializedWorldRun(Initial(fleet, first), es) && w == Run(Initial(fleet, first), es)
  }

  lemma ReachedIsSafe(w: World, fleet: map<Identity, Body>, first: Call, es: seq<WorldEvent>)
    requires ReachedBy(w, fleet, first, es)
    ensures Safe(w) && FleetLedgerRuns.StatusOk(w.db)
  {
    assert Safe(Initial(fleet, first)) && FleetLedgerRuns.StatusOk(EmptyDb);
    hide Safe, FleetLedgerRuns.StatusOk;
    StatusOfEverySerializedWorldRun(Initial(fleet, first), es);
  }

  /** `Progress` from every unsettled state that a serialized run with crashes, lost
   *  replies and a moving Fleet reaches. */
  lemma ProgressOfEveryRun(
    w: World, fleet: map<Identity, Body>, first: Call, es: seq<WorldEvent>, call: Call, p: nat, a: Answers)
    requires ReachedBy(w, fleet, first, es)
    requires Unsettled(w, call, p) && FleetAnswers(w, call, a) && ClockAgrees(w.db, p, a)
    requires OwnsCurrentAttempt(w.db, call.operation, p)
    ensures Linked(w.db)
    ensures
      var w2 := Reconcile(w, call, a);
      && w2.phase.Finished? && SettledAt(w2.db, p)
      && (KeepsDesired(w, call, a) && !HoldsAnother(w, call) ==> w2.db.records[p].state == Applied)
      && (w.db.records[p].state == Attempted && HoldsAnother(w, call) ==> w2.db.records[p].state == Conflict)
  {
    ReachedIsSafe(w, fleet, first, es);
    LinkedOfSafe(w);
    hide Safe, FleetLedgerRuns.StatusOk, ReachedBy, Reconcile, Unsettled, FleetAnswers, ClockAgrees, OwnsCurrentAttempt;
    Progress(w, call, p, a);
  }

  /** In every such state, one call with Fleet answering and the clock agreeing
   *  settles the projection if and only if its operation made the current attempt
   *  or there is none. */
  lemma SettlesIffOwnerOfEveryRun(
    w: World, fleet: map<Identity, Body>, first: Call, es: seq<WorldEvent>, call: Call, p: nat, a: Answers)
    requires ReachedBy(w, fleet, first, es)
    requires Unsettled(w, call, p) && FleetAnswers(w, call, a) && ClockAgrees(w.db, p, a)
    ensures Linked(w.db)
    ensures SettledAt(Reconcile(w, call, a).db, p) <==> OwnsCurrentAttempt(w.db, call.operation, p)
  {
    ReachedIsSafe(w, fleet, first, es);
    LinkedOfSafe(w);
    hide Safe, FleetLedgerRuns.StatusOk, ReachedBy, Reconcile, Unsettled, FleetAnswers, ClockAgrees, OwnsCurrentAttempt;
    SettlesIffOwner(w, call, p, a);
  }

  /** The events of one call, in program order. */
  function Script(call: Call, a: Answers): seq<WorldEvent> {
    [Start(call, a.reservedAt), CapabilitiesArrive(a.capabilities)] +
    ([InspectionArrives(a.first), RecoverNow(a.firstRecoveredAt)] +
     ([AttemptNow(a.attemptedAt), ApplyNow(a.apply, a.held)] +
      ([InspectionArrives(a.second), RecoverNow(a.recoveredAt)] + [])))
  }

  lemma ScriptStartsOnce(call: Call, a: Answers, op: OperationId)
    requires call.operation != op
    ensures NeverStarts(Script(call, a), op)
  {
  }

  lemma RunTwo(w: World, e: WorldEvent, f: WorldEvent, rest: seq<WorldEvent>)
    requires Linked(w.db)
    ensures Run(w, [e, f] + rest) == Run(Next(Next(w, e), f), rest)
  {
    assert ([e, f] + rest)[1..] == [f] + rest;
    assert ([f] + rest)[1..] == rest;
  }

  /** One call is a run of its script. */
  lemma ReconcileIsRun(w: World, call: Call, a: Answers)
    requires Linked(w.db)
    ensures Run(w, Script(call, a)) == Reconcile(w, call, a)
  {
    var last := [InspectionArrives(a.second), RecoverNow(a.recoveredAt)] + [];
    var dispatch := [AttemptNow(a.attemptedAt), ApplyNow(a.apply, a.held)] + last;
    var inspection := [InspectionArrives(a.first), RecoverNow(a.firstRecoveredAt)] + dispatch;
    RunTwo(w, Start(call, a.reservedAt), CapabilitiesArrive(a.capabilities), inspection);
    TailIsRun(Opening(w, call, a), a);
  }

  lemma TailIsRun(w: World, a: Answers)
    requires Linked(w.db)
    ensures
      var last := [InspectionArrives(a.second), RecoverNow(a.recoveredAt)] + [];
      var dispatch := [AttemptNow(a.attemptedAt), ApplyNow(a.apply, a.held)] + last;
      var inspection := [InspectionArrives(a.first), RecoverNow(a.firstRecoveredAt)] + dispatch;
      Run(w, inspection) == Readback(Dispatch(InspectEarlier(w, a), a), a)
  {
    var last := [InspectionArrives(a.second), RecoverNow(a.recoveredAt)] + [];
    var dispatch := [AttemptNow(a.attemptedAt), ApplyNow(a.apply, a.held)] + last;
    RunTwo(w, InspectionArrives(a.first), RecoverNow(a.firstRecoveredAt), dispatch);
    RunTwo(InspectEarlier(w, a), AttemptNow(a.attemptedAt), ApplyNow(a.apply, a.held), last);
    RunTwo(Dispatch(InspectEarlier(w, a), a), InspectionArrives(a.second), RecoverNow(a.recoveredAt), []);
  }
}
