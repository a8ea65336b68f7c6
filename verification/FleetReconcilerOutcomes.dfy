/** What each reported outcome of a call says about the stored record, and when the
 *  outcomes that leave it unsettled come out.
 */
module FleetReconcilerOutcomes {
  import opened Options
  import opened FleetLedger
  import opened FleetLedgerInvariant
  import opened FleetReconciler
  import opened FleetReconcilerRuns
  import opened FleetLedgerAnswers
  import FleetLedgerRuns
  import FleetClient

  /** The store knows the call's operation, with the call's tuple. */
  predicate Known(db: Db, call: Call) {
    call.operation in db.operations && db.operations[call.operation].tuple == call.tuple
  }

  /** The state of the record behind the call. */
  ghost function StateFor(db: Db, call: Call): State
    requires Linked(db) && Known(db, call)
  {
    db.records[db.operations[call.operation].projection].state
  }

  /** What an outcome means for the record behind the call. */
  ghost predicate Means(db: Db, call: Call, o: Outcome)
    requires Linked(db)
  {
    if Known(db, call) && Fits(call.tuple) then
      && ((o == OutcomeApplied || o == OutcomeAlreadyApplied) <==> StateFor(db, call) == Applied)
      && (o == OutcomeConflict <==> StateFor(db, call) == Conflict)
      && (o == OutcomeRetryable ==> StateFor(db, call) == Attempted)
    else o == OutcomeConflict || (o.OutcomeFailed? && (!Fits(call.tuple) ==> o.error == SqlError))
  }

  /** What the owner knows on the way: its view is the store's, and an outcome means
   *  what it should. */
  ghost predicate Told(w: World)
    requires Linked(w.db)
  {
    match w.phase
    case Idle => true
    case NeedCapabilities(v) => Underway(w.db, w.call, v) && !Terminal(v.state)
    case NeedInspection(v, _) => Underway(w.db, w.call, v) && v.state == Attempted
    case NeedRecovery(v, _, _) => Underway(w.db, w.call, v) && v.state == Attempted
    case NeedAttempt(v, first) => Underway(w.db, w.call, v) && v.state == (if first then Desired else Attempted)
    case NeedApply(v) => Underway(w.db, w.call, v) && v.state == Attempted
    case Finished(o) => Means(w.db, w.call, o)
  }

  ghost predicate Underway(db: Db, call: Call, v: View) {
    && v.projection < |db.records| && v == ViewOf(db, v.projection)
    && Known(db, call) && db.operations[call.operation].projection == v.projection && v.tuple == call.tuple
    && Fits(call.tuple)
  }

  /** An outcome reported of a record that the owner's view shows. */
  lemma ViewMeans(db: Db, call: Call, v: View, o: Outcome)
    requires Linked(db) && Underway(db, call, v)
    requires (o == OutcomeApplied || o == OutcomeAlreadyApplied) <==> v.state == Applied
    requires o == OutcomeConflict <==> v.state == Conflict
    requires o == OutcomeRetryable ==> v.state == Attempted
    ensures Means(db, call, o)
  {
  }

  lemma BeginTold(w: World, call: Call, now: nat)
    requires Inv(w.db) && Linked(w.db)
    ensures Told(Begin(w, call, now))
  {
    hide Inv, Linked, Reserve, Means, Underway;
    var (d2, answer) := Reserve(w.db, Submission(call.operation, call.tuple), now);
    assert Begin(w, call, now).db == d2;
    if answer.Err? || answer.value.Refused? {
      NotTaken(w.db, call, now);
    } else {
      TakenView(w.db, call, now);
      var v := answer.value.view;
      if v.state == Applied { ViewMeans(d2, call, v, OutcomeAlreadyApplied); }
      if v.state == Conflict { ViewMeans(d2, call, v, OutcomeConflict); }
    }
  }

  /** A refused or failed submission leaves the store, which does not know it. */
  lemma NotTaken(db: Db, call: Call, now: nat)
    requires Inv(db) && Linked(db)
    requires var answer := Reserve(db, Submission(call.operation, call.tuple), now).1;
             answer.Err? || answer.value.Refused?
    ensures var (d2, answer) := Reserve(db, Submission(call.operation, call.tuple), now);
            d2 == db && Means(db, call, if answer.Err? then OutcomeFailed(answer.error) else OutcomeConflict)
  {
    ReserveAnswers(db, Submission(call.operation, call.tuple), now);
    FleetLedgerRuns.CounterMovesByOne(db, Submission(call.operation, call.tuple), now);
    hide Reserve, Inv, KeyTaken, TupleHeld;
  }

  lemma TakenView(db: Db, call: Call, now: nat)
    requires Inv(db) && Linked(db)
    requires var answer := Reserve(db, Submission(call.operation, call.tuple), now).1;
             answer.Ok? && !answer.value.Refused?
    ensures var (d2, answer) := Reserve(db, Submission(call.operation, call.tuple), now);
            Underway(d2, call, answer.value.view)
  {
    hide Reserve, Inv, Linked;
    OperationsLinked(db);
    ReserveEffects(db, Submission(call.operation, call.tuple), now);
    FleetLedgerRuns.AcceptedIsRecorded(db, Submission(call.operation, call.tuple), now);
  }

  lemma OperationsLinked(db: Db)
    requires Inv(db)
    ensures OperationsOk(db.records, db.operations)
  {
  }

  lemma RecoverTold(w: World, now: nat)
    requires Inv(w.db) && Linked(w.db) && w.phase.NeedRecovery? && Told(w)
    ensures Told(Recovered(w, now))
  {
    hide Inv, Linked, Recover, Means, Underway;
    var v, c, inspection := w.phase.view, w.call, w.phase.inspection;
    RecoverShows(w.db, c, v, inspection, now);
    var (d2, answer) := Recover(w.db, c.operation, c.tuple.device, c.tuple.generation, v.revision, inspection, now);
    assert Recovered(w, now).db == d2;
    if answer.Err? {
      ViewMeans(d2, c, v, OutcomeFailed(answer.error));
    } else {
      var after := AfterRecovery(answer.value, w.phase.retry, inspection);
      if after.Finished? { ViewMeans(d2, c, answer.value, after.outcome); }
    }
  }

  lemma RecoverShows(db: Db, c: Call, v: View, inspection: Inspection, now: nat)
    requires Inv(db) && Linked(db) && Underway(db, c, v) && v.state == Attempted
    ensures var (d2, answer) := Recover(db, c.operation, c.tuple.device, c.tuple.generation, v.revision, inspection, now);
            if answer.Err? then d2 == db
            else Underway(d2, c, answer.value) && answer.value.state != Desired
  {
    RecoverEffects(db, c.operation, c.tuple, v.projection, inspection, now);
    FleetLedgerAnswers.RecoverAnswers(db, c.operation, c.tuple.device, c.tuple.generation, v.revision, inspection, now);
    hide Recover, Inv, RecoveryAnswers;
  }

  lemma AttemptTold(w: World, now: nat)
    requires Inv(w.db) && Linked(w.db) && w.phase.NeedAttempt? && Told(w)
    ensures Told(Attempting(w, now))
  {
    hide Inv, Linked, Attempt, Means, Underway;
    var v, c := w.phase.view, w.call;
    AttemptShows(w.db, c, v, now);
    var (d2, answer) := Attempt(w.db, c.operation, c.tuple.device, c.tuple.generation, v.revision, now);
    assert Attempting(w, now).db == d2;
    if answer.Err? { ViewMeans(d2, c, v, OutcomeFailed(answer.error)); }
  }

  lemma AttemptShows(db: Db, c: Call, v: View, now: nat)
    requires Linked(db) && Underway(db, c, v) && !Terminal(v.state)
    ensures var (d2, answer) := Attempt(db, c.operation, c.tuple.device, c.tuple.generation, v.revision, now);
            if answer.Err? then d2 == db
            else Underway(d2, c, answer.value.view) && answer.value.view.state == Attempted
  {
    AttemptEffects(db, c.operation, c.tuple, v.projection, now);
    hide Attempt, CountAttempts;
  }

  lemma ApplyTold(w: World, course: FleetClient.Course, held: Option<Body>)
    requires Linked(w.db) && w.phase.NeedApply? && Told(w)
    ensures Told(Applying(w, course, held))
  {
    hide Linked, Means, Underway, Holding;
    ViewMeans(w.db, w.call, w.phase.view, OutcomeRetryable);
  }

  lemma CapabilitiesTold(w: World, reply: CapabilitiesReply)
    requires Linked(w.db) && w.phase.NeedCapabilities? && Told(w)
    ensures Told(Next(w, CapabilitiesArrive(reply)))
  {
    hide Linked, Means, Underway, Begin, Recovered, Attempting, Applying, Register;
    ViewMeans(w.db, w.call, w.phase.view, OutcomeNoFleet);
    ViewMeans(w.db, w.call, w.phase.view, OutcomeUnsupported);
  }

  /** An action of the owner itself. */
  predicate Owned(e: WorldEvent) {
    e.CapabilitiesArrive? || e.InspectionArrives? || e.RecoverNow? || e.AttemptNow? || e.ApplyNow?
  }

  lemma StepTold(w: World, e: WorldEvent)
    requires Inv(w.db) && Linked(w.db) && Told(w) && Owned(e)
    ensures Inv(Next(w, e).db) && Told(Next(w, e))
  {
    hide Inv, Linked, Told, Begin, Recovered, Attempting, Applying, Register, AfterCapabilities, ReadBack;
    StepOnLedger(w, e);
    if LedgerEvent(w, e).Some? { StepKeeps(w.db, LedgerEvent(w, e).value); }
    match e
    case CapabilitiesArrive(reply) => if w.phase.NeedCapabilities? { CapabilitiesTold(w, reply); }
    case InspectionArrives(course) => if w.phase.NeedInspection? { InspectionTold(w, course); }
    case RecoverNow(now) => if w.phase.NeedRecovery? { RecoverTold(w, now); }
    case AttemptNow(now) => if w.phase.NeedAttempt? { AttemptTold(w, now); }
    case ApplyNow(course, held) => if w.phase.NeedApply? { ApplyTold(w, course, held); }
    case _ =>
  }

  lemma InspectionTold(w: World, course: FleetClient.Course)
    requires Linked(w.db) && w.phase.NeedInspection? && Told(w)
    ensures Told(Next(w, InspectionArrives(course)))
  {
    hide Linked, Means, Underway, Begin, Recovered, Attempting, Applying, Register, ReadBack;
  }

  // ------------------------------------------------------------ one whole call

  /** After each stage the call is over or at the next one. */
  lemma StagesEnd(w: World, a: Answers)
    requires Linked(w.db)
    ensures w.phase.Finished? || w.phase.NeedAttempt? ==>
              InspectEarlier(w, a) == w
    ensures w.phase.NeedInspection? ==>
              InspectEarlier(w, a).phase.Finished? || InspectEarlier(w, a).phase.NeedAttempt?
    ensures InspectEarlier(w, a).call == w.call
  {
    hide Linked, Recover, ReadBack, AfterAttempt, Attempting, Applying, Begin, Register;
  }

  lemma DispatchEnds(w: World, a: Answers)
    requires Linked(w.db) && (w.phase.Finished? || w.phase.NeedAttempt?)
    ensures var w2 := Dispatch(w, a);
            (w2.phase.Finished? || (w2.phase.NeedInspection? && !w2.phase.retry)) && w2.call == w.call
    ensures w.phase.Finished? ==> Dispatch(w, a) == w
  {
    hide Linked, Attempt, Recovered, Begin, Register, Holding;
  }

  lemma ReadbackEnds(w: World, a: Answers)
    requires Linked(w.db) && (w.phase.Finished? || (w.phase.NeedInspection? && !w.phase.retry))
    ensures Readback(w, a).phase.Finished? && Readback(w, a).call == w.call
    ensures w.phase.Finished? ==> Readback(w, a) == w
  {
    hide Linked, Recover, ReadBack, Attempting, Applying, Begin, Register;
  }

  lemma OpeningEnds(w: World, call: Call, a: Answers)
    requires Linked(w.db) && (w.phase.Idle? || w.phase.Finished?)
    ensures var w1 := Opening(w, call, a);
            (w1.phase.Finished? || w1.phase.NeedInspection? || w1.phase.NeedAttempt?) && w1.call == call
            && w1.fleet == w.fleet && w1.db == Reserve(w.db, Submission(call.operation, call.tuple), a.reservedAt).0
  {
    hide Linked, Reserve, Recovered, Attempting, Applying, Register;
  }

  /** A call comes to an end, with an outcome. */
  lemma CallEnds(w: World, call: Call, a: Answers)
    requires Linked(w.db) && (w.phase.Idle? || w.phase.Finished?)
    ensures Reconcile(w, call, a).phase.Finished? && Reconcile(w, call, a).call == call
  {
    hide Linked, Opening, InspectEarlier, Dispatch, Readback;
    OpeningEnds(w, call, a);
    var w1 := Opening(w, call, a);
    StagesEnd(w1, a);
    DispatchEnds(InspectEarlier(w1, a), a);
    ReadbackEnds(Dispatch(InspectEarlier(w1, a), a), a);
  }

  lemma TwoTold(w: World, e: WorldEvent, f: WorldEvent)
    requires Inv(w.db) && Linked(w.db) && Told(w) && Owned(e) && Owned(f)
    ensures var w2 := Next(Next(w, e), f); Inv(w2.db) && Told(w2)
  {
    hide Inv, Linked, Told, Next;
    StepTold(w, e);
    StepTold(Next(w, e), f);
  }

  lemma OpeningTold(w: World, call: Call, a: Answers)
    requires Inv(w.db) && Linked(w.db) && (w.phase.Idle? || w.phase.Finished?)
    ensures Inv(Opening(w, call, a).db) && Told(Opening(w, call, a))
  {
    hide Inv, Linked, Told, Reserve;
    BeginTold(w, call, a.reservedAt);
    ReserveKeeps(w.db, Submission(call.operation, call.tuple), a.reservedAt);
    var w1 := Next(w, Start(call, a.reservedAt));
    assert w1 == Begin(w, call, a.reservedAt);
    hide Next, Begin;
    StepTold(w1, CapabilitiesArrive(a.capabilities));
  }

  /** The read-back of an earlier attempt and all that follows, from any view that is
   *  the store's. */
  lemma LaterMeans(w: World, a: Answers)
    requires Inv(w.db) && Linked(w.db) && Told(w)
    requires w.phase.Finished? || w.phase.NeedInspection? || w.phase.NeedAttempt?
    ensures var w2 := Readback(Dispatch(InspectEarlier(w, a), a), a);
            w2.phase.Finished? && w2.call == w.call && Told(w2)
  {
    hide Inv, Linked, InspectEarlier, Dispatch, Readback, Told;
    StagesEnd(w, a);
    EarlierTold(w, a);
    DispatchTold(InspectEarlier(w, a), a);
  }

  lemma EarlierTold(w: World, a: Answers)
    requires Inv(w.db) && Linked(w.db) && Told(w)
    ensures Inv(InspectEarlier(w, a).db) && Told(InspectEarlier(w, a))
  {
    hide Inv, Linked, Told, Next;
    TwoTold(w, InspectionArrives(a.first), RecoverNow(a.firstRecoveredAt));
  }

  lemma DispatchTold(w: World, a: Answers)
    requires Inv(w.db) && Linked(w.db) && Told(w) && (w.phase.Finished? || w.phase.NeedAttempt?)
    ensures var w2 := Readback(Dispatch(w, a), a);
            w2.phase.Finished? && w2.call == w.call && Told(w2)
  {
    hide Inv, Linked, Told, Next;
    TwoTold(w, AttemptNow(a.attemptedAt), ApplyNow(a.apply, a.held));
    DispatchEnds(w, a);
    ReadbackTold(Dispatch(w, a), a);
  }

  lemma DispatchedTold(w: World, a: Answers)
    requires Inv(w.db) && Linked(w.db) && Told(w)
    ensures Inv(Dispatch(w, a).db) && Told(Dispatch(w, a))
  {
    hide Inv, Linked, Told, Next;
    TwoTold(w, AttemptNow(a.attemptedAt), ApplyNow(a.apply, a.held));
  }

  lemma ReadbackTold(w: World, a: Answers)
    requires Inv(w.db) && Linked(w.db) && Told(w)
    requires w.phase.Finished? || (w.phase.NeedInspection? && !w.phase.retry)
    ensures var w2 := Readback(w, a);
            w2.phase.Finished? && w2.call == w.call && Told(w2)
  {
    hide Inv, Linked, Told, Next;
    TwoTold(w, InspectionArrives(a.second), RecoverNow(a.recoveredAt));
    ReadbackEnds(w, a);
  }

  /** The outcome of a call tells the state of its record: applied exactly with one of
   *  the two applied outcomes, in conflict exactly with that one, and attempted with a
   *  retryable one. A call whose operation the store does not know ends refused or
   *  failed. */
  lemma OutcomeMeans(w: World, call: Call, a: Answers)
    requires Inv(w.db) && Linked(w.db) && (w.phase.Idle? || w.phase.Finished?)
    ensures var w2 := Reconcile(w, call, a);
            w2.phase.Finished? && Means(w2.db, call, w2.phase.outcome)
  {
    hide Inv, Linked, Opening, InspectEarlier, Dispatch, Readback, Means;
    OpeningTold(w, call, a);
    OpeningEnds(w, call, a);
    LaterMeans(Opening(w, call, a), a);
  }

  // ------------------------------------------------- when each outcome comes out

  /** What the environment keeps from the read-back of an apply: it is not sent, or its
   *  read-back is not answered, or Fleet holds nothing then. */
  predicate Quiet(fleet: map<Identity, Body>, id: Identity, a: Answers) {
    || a.apply == FleetClient.Oversized || a.apply == FleetClient.ConnectFails
    || !FleetClient.InspectAnswered(a.second)
    || (if FleetClient.MayHaveWritten(a.apply) then a.held.None? else id !in fleet)
  }

  predicate IsBound(db: Db, t: Tuple) { ActiveBinding(t.network, t.device, t.binding) in db.active }

  /** This call's operation made the record's current attempt. */
  predicate Maker(db: Db, op: OperationId, r: Record) {
    r.current.Some? && r.current.value < |db.attempts| && db.attempts[r.current.value].operation == op
  }

  /** The durable attempt, and what comes of it. */
  lemma DispatchExactly(w: World, a: Answers)
    requires Inv(w.db) && Linked(w.db) && Told(w) && w.phase.NeedAttempt?
    ensures var v := w.phase.view;
            var o := Readback(Dispatch(w, a), a).phase;
            var late := w.phase.first && a.attemptedAt < w.db.records[v.projection].persistedAt;
            && (!IsBound(w.db, v.tuple) ==> o == Finished(OutcomeFailed(ConflictError)))
            && (IsBound(w.db, v.tuple) && late ==> o == Finished(OutcomeFailed(SqlError)))
            && (o == Finished(OutcomeRetryable) <==>
                  IsBound(w.db, v.tuple) && !late && Quiet(w.fleet, Subject(w.call.tuple), a))
            && o != Finished(OutcomeAlreadyApplied)
            && o != Finished(OutcomeNoFleet) && o != Finished(OutcomeUnsupported)
  {
    var v, c := w.phase.view, w.call;
    var w1 := Next(w, AttemptNow(a.attemptedAt));
    StepTold(w, AttemptNow(a.attemptedAt));
    AttemptStored(w, a.attemptedAt);
    hide Inv, Linked, Told, Attempting;
    if w1.phase.NeedApply? {
      ApplyExactly(w1, a);
    } else {
      FinishedStays(w1, a);
    }
  }

  lemma FinishedStays(w: World, a: Answers)
    requires Linked(w.db) && w.phase.Finished?
    ensures Next(w, ApplyNow(a.apply, a.held)) == w && Readback(w, a) == w
  {
    hide Linked, Recovered, Applying, Begin, Attempting, Register;
  }

  /** The attempt is stored exactly for an active binding and an agreeing clock. */
  lemma AttemptStored(w: World, now: nat)
    requires Inv(w.db) && Linked(w.db) && Told(w) && w.phase.NeedAttempt?
    ensures var w1 := Next(w, AttemptNow(now));
            var v := w.phase.view;
            var late := w.phase.first && now < w.db.records[v.projection].persistedAt;
            && w1.call == w.call && w1.fleet == w.fleet && v.projection < |w1.db.records|
            && w1.phase == (if !IsBound(w.db, v.tuple) then Finished(OutcomeFailed(ConflictError))
                            else if late then Finished(OutcomeFailed(SqlError))
                            else NeedApply(ViewOf(w1.db, v.projection)))
            && (w1.phase.NeedApply? ==> Maker(w1.db, w.call.operation, w1.db.records[v.projection]))
  {
    hide Inv, Linked, Told, Underway, Attempt, Recovered, Applying, Begin, Register, IsBound, Maker;
    var v, c := w.phase.view, w.call;
    AtAttempt(w);
    StoredExactly(w.db, c, v, now);
  }

  lemma AtAttempt(w: World)
    requires Linked(w.db) && Told(w) && w.phase.NeedAttempt?
    ensures var v := w.phase.view;
            && Underway(w.db, w.call, v) && v.state == (if w.phase.first then Desired else Attempted)
            && v.projection < |w.db.records|
  {
  }

  lemma StoredExactly(db: Db, c: Call, v: View, now: nat)
    requires Inv(db) && Linked(db) && Underway(db, c, v) && !Terminal(v.state)
    ensures var (d2, answer) := Attempt(db, c.operation, c.tuple.device, c.tuple.generation, v.revision, now);
            var late := v.state == Desired && now < db.records[v.projection].persistedAt;
            && v.projection < |d2.records|
            && (!IsBound(db, v.tuple) ==> answer == Err(ConflictError))
            && (IsBound(db, v.tuple) && late ==> answer == Err(SqlError))
            && (IsBound(db, v.tuple) && !late ==>
                  && answer == Ok(Recorded(ViewOf(d2, v.projection))) && answer.value.view.state == Attempted
                  && Maker(d2, c.operation, d2.records[v.projection]))
  {
    hide Inv, Attempt;
    InvParts(db);
    AttemptAnswers(db, c.operation, c.tuple.device, c.tuple.generation, v.revision, now);
    if IsBound(db, v.tuple) && !(v.state == Desired && now < db.records[v.projection].persistedAt) {
      AttemptedRows(db, c.operation, c.tuple.device, c.tuple.generation, v.revision, now);
    }
    hide Linked;
  }

  lemma InvParts(db: Db)
    requires Inv(db)
    ensures RecordsOk(db.records, db.devices)
  {
  }

  /** The apply and its read-back, for an attempt of the call's own. */
  lemma ApplyExactly(w: World, a: Answers)
    requires Inv(w.db) && Linked(w.db) && Told(w) && w.phase.NeedApply?
    requires Maker(w.db, w.call.operation, w.db.records[w.phase.view.projection])
    ensures var o := Readback(Next(w, ApplyNow(a.apply, a.held)), a).phase;
            && (o == Finished(OutcomeRetryable) <==> Quiet(w.fleet, Subject(w.call.tuple), a))
            && o != Finished(OutcomeAlreadyApplied)
            && o != Finished(OutcomeNoFleet) && o != Finished(OutcomeUnsupported)
  {
    var w1 := Next(w, ApplyNow(a.apply, a.held));
    AppliedTo(w, a);
    StepTold(w, ApplyNow(a.apply, a.held));
    hide Inv, Linked, Told, Next, Maker;
    if w1.phase.Finished? {
      FinishedStays(w1, a);
    } else {
      ReadExactly(w1, a.second, a.recoveredAt);
    }
  }

  lemma AppliedTo(w: World, a: Answers)
    requires Linked(w.db) && w.phase.NeedApply?
    ensures var w1 := Next(w, ApplyNow(a.apply, a.held));
            && w1.db == w.db && w1.call == w.call
            && w1.phase == (if a.apply == FleetClient.Oversized || a.apply == FleetClient.ConnectFails
                            then Finished(OutcomeRetryable) else NeedInspection(w.phase.view, false))
            && (FleetClient.MayHaveWritten(a.apply) ==>
                  (Subject(w.call.tuple) in w1.fleet <==> a.held.Some?))
            && (!FleetClient.MayHaveWritten(a.apply) ==> w1.fleet == w.fleet)
  {
    FleetClient.NotSentMeansNotWritten(a.apply);
    hide Linked, FleetClient.ApplyReply, FleetClient.MayHaveWritten, Recovered, Attempting, Begin, Register;
  }

  /** One read of Fleet and its record. Only the operation that made the attempt gets
   *  through, and only a body settles. */
  lemma ReadExactly(w: World, course: FleetClient.Course, now: nat)
    requires Inv(w.db) && Linked(w.db) && Told(w) && w.phase.NeedInspection?
    ensures var w2 := Next(Next(w, InspectionArrives(course)), RecoverNow(now));
            var r := w.db.records[w.phase.view.projection];
            var answered := FleetClient.InspectAnswered(course);
            var held := Subject(w.call.tuple) in w.fleet;
            && (!Maker(w.db, w.call.operation, r) ==> w2.phase == Finished(OutcomeFailed(SqlError)))
            && (Maker(w.db, w.call.operation, r) && !answered ==> w2.phase == Finished(OutcomeRetryable))
            && (Maker(w.db, w.call.operation, r) && answered && !held ==>
                  if !w.phase.retry then w2.phase == Finished(OutcomeRetryable)
                  else w2.phase == NeedAttempt(w.phase.view, false) && w2.db.records == w.db.records
                       && w2.db.active == w.db.active && w2.fleet == w.fleet && w2.call == w.call)
            && (answered && held ==>
                  w2.phase.Finished? && w2.phase.outcome != OutcomeRetryable
                  && (w2.phase.outcome.OutcomeFailed? || w2.phase.outcome == OutcomeApplied || w2.phase.outcome == OutcomeConflict))
            && (!(Maker(w.db, w.call.operation, r) && answered && !held) ==> w2.phase.Finished?)
  {
    hide Inv, Linked, Told, Recovered, Attempting, Applying, Begin, Register, Maker, FleetClient.InspectAnswered;
    var w1 := Next(w, InspectionArrives(course));
    assert w1 == w.(phase := NeedRecovery(w.phase.view, w.phase.retry, ReadBack(w, course)));
    InspectionTold(w, course);
    RecoverExactly(w1, now);
  }

  lemma RecoverExactly(w: World, now: nat)
    requires Inv(w.db) && Linked(w.db) && Told(w) && w.phase.NeedRecovery?
    ensures var w2 := Recovered(w, now);
            var r := w.db.records[w.phase.view.projection];
            var maker := Maker(w.db, w.call.operation, r);
            && w2.fleet == w.fleet && w2.call == w.call
            && (!maker ==> w2.phase == Finished(OutcomeFailed(SqlError)))
            && (maker && w.phase.inspection == Unavailable ==> w2.phase == Finished(OutcomeRetryable))
            && (maker && w.phase.inspection == Missing ==>
                  && w2.db.records == w.db.records && w2.db.active == w.db.active
                  && w2.phase == if w.phase.retry then NeedAttempt(w.phase.view, false) else Finished(OutcomeRetryable))
            && (w.phase.inspection.Observed? ==>
                  w2.phase.Finished? && w2.phase.outcome != OutcomeRetryable
                  && (w2.phase.outcome.OutcomeFailed? || w2.phase.outcome == OutcomeApplied || w2.phase.outcome == OutcomeConflict))
  {
    hide Inv, Linked, Recover, Underway, Maker;
    var v, c, inspection := w.phase.view, w.call, w.phase.inspection;
    RecoverGives(w.db, c, v, inspection, now);
    var (d2, answer) := Recover(w.db, c.operation, c.tuple.device, c.tuple.generation, v.revision, inspection, now);
    assert answer.Ok? ==> Recovered(w, now).phase == AfterRecovery(answer.value, w.phase.retry, inspection);
  }

  lemma RecoverGives(db: Db, c: Call, v: View, inspection: Inspection, now: nat)
    requires Inv(db) && Linked(db) && Underway(db, c, v) && v.state == Attempted
    ensures var (d2, answer) := Recover(db, c.operation, c.tuple.device, c.tuple.generation, v.revision, inspection, now);
            var maker := Maker(db, c.operation, db.records[v.projection]);
            && (!maker ==> answer == Err(SqlError))
            && (maker && !inspection.Observed? ==>
                  answer == Ok(v) && d2.records == db.records && d2.active == db.active)
            && (inspection.Observed? && answer.Ok? ==> Terminal(answer.value.state))
  {
    hide Inv, Recover, SteppedBack, RecordShape;
    RecoverAnswers(db, c.operation, c.tuple.device, c.tuple.generation, v.revision, inspection, now);
    AttemptedShape(db, v.projection);
  }

  lemma AttemptedShape(db: Db, p: nat)
    requires Inv(db) && p < |db.records| && db.records[p].state == Attempted
    ensures db.records[p].revision == 2
  {
    assert RecordShape(db.records[p]);
  }

  /** Which outcome a call comes to, by the record after its reservation, the bindings,
   *  what Fleet held, and what the environment lets through. */
  ghost predicate OutcomeByRecord(db: Db, fleet: map<Identity, Body>, call: Call, a: Answers, o: Outcome)
    requires Linked(db) && Known(db, call)
  {
    var r := db.records[db.operations[call.operation].projection];
    var id := Subject(call.tuple);
    var open := r.state == Desired || r.state == Attempted;
    var working := open && a.capabilities == Complete;
    var maker := Maker(db, call.operation, r);
    var answered := FleetClient.InspectAnswered(a.first);
    && (o == OutcomeAlreadyApplied <==> r.state == Applied)
    && (r.state == Conflict ==> o == OutcomeConflict)
    && (o == OutcomeNoFleet <==> open && a.capabilities == NoCapabilities)
    && (o == OutcomeUnsupported <==> open && a.capabilities == Incomplete)
    && (o == OutcomeRetryable <==>
          && working
          && if r.state == Attempted
             then maker && (!answered || (id !in fleet && IsBound(db, call.tuple) && Quiet(fleet, id, a)))
             else IsBound(db, call.tuple) && r.persistedAt <= a.attemptedAt && Quiet(fleet, id, a))
    && (working && r.state == Attempted && !maker ==> o == OutcomeFailed(SqlError))
    && (working && r.state == Attempted && maker && answered && id !in fleet && !IsBound(db, call.tuple) ==>
          o == OutcomeFailed(ConflictError))
    && (working && r.state == Desired && !IsBound(db, call.tuple) ==> o == OutcomeFailed(ConflictError))
    && (working && r.state == Desired && IsBound(db, call.tuple) && a.attemptedAt < r.persistedAt ==>
          o == OutcomeFailed(SqlError))
  }

  /** A submission that the store knows afterwards was taken, and one it does not know
   *  was refused or failed. */
  lemma TakenExactly(db: Db, call: Call, now: nat)
    requires Inv(db) && Linked(db)
    ensures var (d2, answer) := Reserve(db, Submission(call.operation, call.tuple), now);
            Known(d2, call) && Fits(call.tuple) <==> answer.Ok? && !answer.value.Refused?
  {
    var answer := Reserve(db, Submission(call.operation, call.tuple), now).1;
    hide Reserve, Inv, Linked, KeyTaken, TupleHeld;
    if answer.Err? || answer.value.Refused? {
      NotTaken(db, call, now);
      ReserveAnswers(db, Submission(call.operation, call.tuple), now);
    } else {
      TakenView(db, call, now);
    }
  }

  /** Where the reservation and the capability check lead. */
  lemma OpeningExactly(w: World, call: Call, a: Answers)
    requires Inv(w.db) && Linked(w.db) && (w.phase.Idle? || w.phase.Finished?)
    ensures var w1 := Opening(w, call, a);
            var (d1, answer) := Reserve(w.db, Submission(call.operation, call.tuple), a.reservedAt);
            && w1.db == d1
            && w1.phase ==
               if answer.Err? then Finished(OutcomeFailed(answer.error))
               else if answer.value.Refused? then Finished(OutcomeConflict)
               else
                 var v := answer.value.view;
                 if v.state == Applied then Finished(OutcomeAlreadyApplied)
                 else if v.state == Conflict then Finished(OutcomeConflict)
                 else if a.capabilities == NoCapabilities then Finished(OutcomeNoFleet)
                 else if a.capabilities == Incomplete then Finished(OutcomeUnsupported)
                 else if v.state == Attempted then NeedInspection(v, true) else NeedAttempt(v, true)
  {
    hide Inv, Linked, Reserve, Recovered, Attempting, Applying, Register;
    var w1 := Next(w, Start(call, a.reservedAt));
    assert w1 == Begin(w, call, a.reservedAt);
    assert Opening(w, call, a) == Next(w1, CapabilitiesArrive(a.capabilities));
    var (d1, answer) := Reserve(w.db, Submission(call.operation, call.tuple), a.reservedAt);
    if answer.Ok? && !answer.value.Refused? {
      var v := answer.value.view;
      assert w1.phase == StateOutcome(v.state, NeedCapabilities(v));
      if !Terminal(v.state) { assert Opening(w, call, a).phase == AfterCapabilities(w1, v, a.capabilities); }
    }
  }

  /** The outcome of every call, exactly. */
  lemma OutcomesExactly(w: World, call: Call, a: Answers)
    requires Inv(w.db) && Linked(w.db) && (w.phase.Idle? || w.phase.Finished?)
    ensures var (d1, answer) := Reserve(w.db, Submission(call.operation, call.tuple), a.reservedAt);
            var w2 := Reconcile(w, call, a);
            && Linked(d1) && w2.phase.Finished?
            && if Known(d1, call) && Fits(call.tuple) then OutcomeByRecord(d1, w.fleet, call, a, w2.phase.outcome)
               else w2.phase.outcome == if answer.Err? then OutcomeFailed(answer.error) else OutcomeConflict
  {
    hide Inv, Linked, Reserve, Opening, InspectEarlier, Dispatch, Readback, OutcomeByRecord, Means, Begin, Next;
    var (d1, answer) := Reserve(w.db, Submission(call.operation, call.tuple), a.reservedAt);
    var w1 := Opening(w, call, a);
    CallEnds(w, call, a);
    OpeningEnds(w, call, a);
    OpeningExactly(w, call, a);
    OpeningTold(w, call, a);
    TakenExactly(w.db, call, a.reservedAt);
    if w1.phase.Finished? {
      StagesEnd(w1, a);
      DispatchEnds(w1, a);
      ReadbackEnds(w1, a);
    }
    if Known(d1, call) && Fits(call.tuple) {
      TakenView(w.db, call, a.reservedAt);
      var v := answer.value.view;
      if w1.phase.Finished? {
        EarlyOutcome(w1, call, v, a);
      } else {
        WorkingOutcome(w1, v, a);
      }
    }
  }

  lemma EarlyOutcome(w: World, call: Call, v: View, a: Answers)
    requires Linked(w.db) && Underway(w.db, call, v) && w.phase.Finished?
    requires w.phase.outcome ==
             if v.state == Applied then OutcomeAlreadyApplied
             else if v.state == Conflict then OutcomeConflict
             else if a.capabilities == NoCapabilities then OutcomeNoFleet else OutcomeUnsupported
    requires !Terminal(v.state) ==> a.capabilities != Complete
    ensures OutcomeByRecord(w.db, w.fleet, call, a, w.phase.outcome)
  {
    hide Linked;
  }

  lemma WorkingOutcome(w: World, v: View, a: Answers)
    requires Inv(w.db) && Linked(w.db) && Told(w) && Underway(w.db, w.call, v) && a.capabilities == Complete
    requires w.phase == (if v.state == Attempted then NeedInspection(v, true) else NeedAttempt(v, true))
    requires v.state == Attempted || v.state == Desired
    ensures var w2 := Readback(Dispatch(InspectEarlier(w, a), a), a);
            w2.phase.Finished? && OutcomeByRecord(w.db, w.fleet, w.call, a, w2.phase.outcome)
  {
    hide Inv, Linked, Told, InspectEarlier, Dispatch, Readback, Quiet, FleetClient.InspectAnswered;
    StagesEnd(w, a);
    var w1 := InspectEarlier(w, a);
    DispatchEnds(w1, a);
    ReadbackEnds(Dispatch(w1, a), a);
    if v.state == Desired {
      DispatchExactly(w, a);
      hide Maker;
    } else {
      InspectedExactly(w, a);
      if w1.phase.Finished? {
        ReadbackEnds(w1, a);
      } else {
        DispatchExactly(w1, a);
      }
      hide Maker;
    }
  }

  lemma InspectedExactly(w: World, a: Answers)
    requires Inv(w.db) && Linked(w.db) && Told(w) && w.phase.NeedInspection? && w.phase.retry
    ensures var w2 := InspectEarlier(w, a);
            var r := w.db.records[w.phase.view.projection];
            var answered := FleetClient.InspectAnswered(a.first);
            var held := Subject(w.call.tuple) in w.fleet;
            && Inv(w2.db) && Told(w2)
            && (!Maker(w.db, w.call.operation, r) ==> w2.phase == Finished(OutcomeFailed(SqlError)))
            && (Maker(w.db, w.call.operation, r) && !answered ==> w2.phase == Finished(OutcomeRetryable))
            && (Maker(w.db, w.call.operation, r) && answered && !held ==>
                  w2.phase == NeedAttempt(w.phase.view, false) && w2.db.records == w.db.records
                  && w2.db.active == w.db.active && w2.fleet == w.fleet && w2.call == w.call)
            && (answered && held ==>
                  w2.phase.Finished? && w2.phase.outcome != OutcomeRetryable
                  && (w2.phase.outcome.OutcomeFailed? || w2.phase.outcome == OutcomeApplied || w2.phase.outcome == OutcomeConflict))
            && (!(Maker(w.db, w.call.operation, r) && answered && !held) ==> w2.phase.Finished?)
  {
    TwoTold(w, InspectionArrives(a.first), RecoverNow(a.firstRecoveredAt));
    ReadExactly(w, a.first, a.firstRecoveredAt);
    hide Inv, Linked, Told, Next, Maker, FleetClient.InspectAnswered;
  }

  // ------------------------------------------------------- over reachable worlds

  /** Every stored operation carries generations that fit their columns. */
  ghost predicate AllFit(db: Db) {
    forall op :: op in db.operations ==> Fits(db.operations[op].tuple)
  }

  lemma StepFits(db: Db, e: Event)
    requires Inv(db) && AllFit(db)
    ensures AllFit(Step(db, e))
  {
    hide Inv, Linked, AllFit, Reserve, Attempt, Recover;
    InvLinked(db);
    match e
    case ReserveEvent(sub, now) => ReserveFits(db, sub, now);
    case AttemptEvent(op, d, g, rev, now) =>
      AttemptOperations(db, op, d, g, rev, now);
      SameFit(db, Step(db, e));
    case RecoverEvent(op, d, g, rev, inspection, now) =>
      RecoverOperations(db, op, d, g, rev, inspection, now);
      SameFit(db, Step(db, e));
    case RegisterEvent(d, n, g, s) => SameFit(db, Step(db, e));
    case BindingsEvent(active) => SameFit(db, Step(db, e));
  }

  lemma SameFit(db: Db, d2: Db)
    requires AllFit(db) && d2.operations == db.operations
    ensures AllFit(d2)
  {
  }

  lemma AttemptOperations(db: Db, op: OperationId, d: DeviceId, g: Generation, expected: nat, now: nat)
    requires Linked(db)
    ensures Attempt(db, op, d, g, expected, now).0.operations == db.operations
  {
    hide CountAttempts, ViewOf;
  }

  lemma RecoverOperations(
    db: Db, op: OperationId, d: DeviceId, g: Generation, expected: nat, inspection: Inspection, now: nat)
    requires Linked(db)
    ensures Recover(db, op, d, g, expected, inspection, now).0.operations == db.operations
  {
    hide Verdict, ClockCovers, ViewOf;
  }

  lemma ReserveFits(db: Db, sub: Submission, now: nat)
    requires Inv(db) && Linked(db) && AllFit(db)
    ensures AllFit(Reserve(db, sub, now).0)
  {
    hide FindRecord, Inv, Linked;
  }

  lemma {:induction false} RunFits(w: World, es: seq<WorldEvent>)
    requires Safe(w) && AllFit(w.db)
    ensures AllFit(Run(w, es).db)
    decreases |es|
  {
    hide Safe, AllFit, Next, Inv;
    if es != [] {
      StepFitsWorld(w, es[0]);
      StepSafe(w, es[0]);
      LinkedOfSafe(w);
      RunFits(Next(w, es[0]), es[1..]);
    }
  }

  lemma StepFitsWorld(w: World, e: WorldEvent)
    requires Safe(w) && AllFit(w.db)
    ensures AllFit(Next(w, e).db)
  {
    hide AllFit, Next, Inv, Linked, Rest;
    StepOnLedger(w, e);
    if LedgerEvent(w, e).Some? { StepFits(w.db, LedgerEvent(w, e).value); }
  }

  /** From every state that any run with crashes reaches: a call whose operation the
   *  store then knows is applied exactly with one of the two applied outcomes, and in
   *  conflict exactly with that one. */
  lemma OutcomeOfEveryRun(fleet: map<Identity, Body>, first: Call, es: seq<WorldEvent>, call: Call, a: Answers)
    requires var w := Run(Initial(fleet, first), es); w.phase.Idle? || w.phase.Finished?
    ensures var w2 := Reconcile(Run(Initial(fleet, first), es), call, a);
            && w2.phase.Finished? && Linked(w2.db)
            && (Known(w2.db, call) ==>
                  var o, s := w2.phase.outcome, StateFor(w2.db, call);
                  && ((o == OutcomeApplied || o == OutcomeAlreadyApplied) <==> s == Applied)
                  && (o == OutcomeConflict <==> s == Conflict)
                  && (o == OutcomeRetryable ==> s == Attempted))
  {
    var start := Initial(fleet, first);
    assert Safe(start) && AllFit(start.db);
    hide Safe, AllFit, Reconcile, Next;
    RunSafe(start, es);
    var w := Run(start, es);
    SafeStore(w);
    OutcomeMeans(w, call, a);
    ReconcileIsRun(w, call, a);
    RunFits(start, es);
    RunFits(w, Script(call, a));
    var w2 := Reconcile(w, call, a);
    if Known(w2.db, call) { KnownFits(w2.db, call); }
  }

  lemma SafeStore(w: World)
    requires Safe(w)
    ensures Inv(w.db) && Linked(w.db)
  {
  }

  lemma KnownFits(db: Db, call: Call)
    requires AllFit(db) && Known(db, call)
    ensures Fits(call.tuple)
  {
  }
}
