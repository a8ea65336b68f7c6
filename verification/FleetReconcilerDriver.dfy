/** `reconcile_one` itself: the straight-line driver over the store and Fleet. */
module FleetReconcilerDriver {
  import opened Options
  import opened FleetLedger
  import opened FleetLedgerInvariant
  import opened FleetLedgerStore
  import opened FleetReconciler
  import opened FleetReconcilerRuns
  import opened FleetReconcilerOutcomes
  import FleetLedgerAnswers
  import FleetClient

  /** Fleet behind its socket. Each call carries how far its round trip gets; an
   *  apply that may have been written leaves whatever Fleet decides. */
  class Fleet {
    var held: map<Identity, Body>

    constructor (held: map<Identity, Body>)
      ensures this.held == held
    {
      this.held := held;
    }

    method Inspect(id: Identity, course: FleetClient.Course) returns (r: Inspection)
      ensures r == if !FleetClient.InspectAnswered(course) then Unavailable
                   else if id in held then Observed(held[id]) else Missing
    {
      if !FleetClient.InspectAnswered(course) { return Unavailable; }
      if id in held { return Observed(held[id]); }
      return Missing;
    }

    method Apply(id: Identity, course: FleetClient.Course, after: Option<Body>)
      returns (reply: FleetClient.Reply<FleetClient.ApplyError>)
      modifies this
      ensures held == if FleetClient.MayHaveWritten(course) then Holding(old(held), id, after) else old(held)
      ensures reply == FleetClient.ApplyReply(course)
    {
      if FleetClient.MayHaveWritten(course) { held := Holding(held, id, after); }
      reply := FleetClient.ApplyReply(course);
    }
  }

  /** Actions that a call does not take leave the world alone. */
  lemma FinishedIgnores(w: World, a: Answers)
    requires Linked(w.db) && w.phase.Finished?
    ensures InspectEarlier(w, a) == w && Dispatch(w, a) == w && Readback(w, a) == w
  {
  }

  lemma FirstCallSkipsInspection(w: World, a: Answers)
    requires Linked(w.db) && w.phase.NeedAttempt?
    ensures InspectEarlier(w, a) == w
  {
  }

  class Reconciler {
    const store: StateStore
    const fleet: Fleet

    constructor (store: StateStore, fleet: Fleet)
      ensures this.store == store && this.fleet == fleet
    {
      this.store, this.fleet := store, fleet;
    }

    /** The store and Fleet hold what world `w` says. */
    ghost predicate At(w: World)
      reads this, store, fleet
    {
      store.Contents() == w.db && fleet.held == w.fleet && Inv(w.db) && Linked(w.db)
    }

    method Reserve(call: Call, now: nat, ghost w: World) returns (answer: Result<Reservation>)
      requires At(w) && w.phase.Idle?
      modifies store
      ensures At(Next(w, Start(call, now)))
      ensures Next(w, Start(call, now)).phase ==
              match answer
              case Err(e) => Finished(OutcomeFailed(e))
              case Ok(Refused) => Finished(OutcomeConflict)
              case Ok(Reserved(v)) => StateOutcome(v.state, NeedCapabilities(v))
              case Ok(Replayed(v)) => StateOutcome(v.state, NeedCapabilities(v))
    {
      hide Inv, Linked;
      answer := store.ReserveN7Projection(Submission(call.operation, call.tuple), now);
    }

    method Inspect(course: FleetClient.Course, call: Call, ghost w: World) returns (inspection: Inspection)
      requires At(w) && w.phase.NeedInspection? && w.call == call
      ensures At(Next(w, InspectionArrives(course)))
      ensures Next(w, InspectionArrives(course)).phase == NeedRecovery(w.phase.view, w.phase.retry, inspection)
    {
      hide Inv, Linked;
      inspection := fleet.Inspect(Subject(call.tuple), course);
    }

    method Recover(call: Call, view: View, inspection: Inspection, now: nat, ghost w: World)
      returns (answer: Result<View>)
      requires At(w) && w.phase.NeedRecovery? && w.phase.view == view && w.phase.inspection == inspection
      requires w.call == call
      modifies store
      ensures At(Next(w, RecoverNow(now))) && Next(w, RecoverNow(now)).call == call
      ensures Next(w, RecoverNow(now)).phase ==
              if answer.Err? then Finished(OutcomeFailed(answer.error))
              else AfterRecovery(answer.value, w.phase.retry, inspection)
    {
      hide Inv, Linked;
      answer := store.RecoverFromInspection(
        call.operation, call.tuple.device, call.tuple.generation, view.revision, inspection, now);
    }

    method Attempt(call: Call, view: View, now: nat, ghost w: World) returns (answer: Result<AttemptOutcome>)
      requires At(w) && w.phase.NeedAttempt? && w.phase.view == view && w.call == call
      modifies store
      ensures At(Next(w, AttemptNow(now))) && Next(w, AttemptNow(now)).call == call
      ensures Next(w, AttemptNow(now)).phase ==
              if answer.Err? then Finished(OutcomeFailed(answer.error))
              else AfterAttempt(answer.value.view, w.phase.first)
    {
      hide Inv, Linked;
      answer := store.RecordDispatchAttempt(
        call.operation, call.tuple.device, call.tuple.generation, view.revision, now);
    }

    method Apply(call: Call, course: FleetClient.Course, held: Option<Body>, ghost w: World)
      returns (reply: FleetClient.Reply<FleetClient.ApplyError>)
      requires At(w) && w.phase.NeedApply? && w.call == call
      modifies fleet
      ensures At(Next(w, ApplyNow(course, held))) && Next(w, ApplyNow(course, held)).call == call
      ensures Next(w, ApplyNow(course, held)).phase ==
              if FleetClient.NothingSent(reply) then Finished(OutcomeRetryable)
              else NeedInspection(w.phase.view, false)
    {
      hide Inv, Linked;
      reply := fleet.Apply(Subject(call.tuple), course, held);
    }

    /** One call runs exactly the steps of `Reconcile` and reports how they ended. The
     *  outcome it reports tells the state of the stored record, and which outcome comes
     *  out is decided by the record after the reservation, the bindings, what Fleet
     *  held, and what the environment lets through. */
    method ReconcileOne(call: Call, a: Answers, ghost w: World) returns (outcome: Outcome)
      requires At(w) && w.phase.Idle?
      modifies store, fleet
      ensures At(Reconcile(w, call, a)) && Reconcile(w, call, a).phase == Finished(outcome)
      ensures Means(store.Contents(), call, outcome)
      ensures var before := old(store.Contents());
              Linked(before)
              && var (d1, answer) := FleetLedger.Reserve(before, Submission(call.operation, call.tuple), a.reservedAt);
                 && Linked(d1)
                 && if Known(d1, call) && FleetLedgerAnswers.Fits(call.tuple)
                    then OutcomeByRecord(d1, old(fleet.held), call, a, outcome)
                    else outcome == if answer.Err? then OutcomeFailed(answer.error) else OutcomeConflict
    {
      hide Inv, Linked, Means, OutcomeByRecord;
      OutcomeMeans(w, call, a);
      OutcomesExactly(w, call, a);
      OpeningTold(w, call, a);
      hide Told;
      ghost var w2 := Opening(w, call, a);
      var reserved := Reserve(call, a.reservedAt, w);
      if w2.phase.Finished? { FinishedIgnores(w2, a); }
      if reserved.Err? { return OutcomeFailed(reserved.error); }
      if reserved.value.Refused? { return OutcomeConflict; }
      var view := reserved.value.view;
      if view.state == Applied { return OutcomeAlreadyApplied; }
      if view.state == Conflict { return OutcomeConflict; }
      if a.capabilities == NoCapabilities { return OutcomeNoFleet; }
      if a.capabilities == Incomplete { return OutcomeUnsupported; }
      if view.state == Attempted {
        outcome := InspectThenRetry(call, a, view, w2);
      } else {
        FirstCallSkipsInspection(w2, a);
        outcome := DispatchThenReadback(call, a, view, true, w2);
      }
    }

    /** `inspect_and_recover` of an earlier attempt: only `missing` leads to a new
     *  attempt and a new apply. */
    method InspectThenRetry(call: Call, a: Answers, view: View, ghost w: World) returns (outcome: Outcome)
      requires At(w) && w.call == call && w.phase == NeedInspection(view, true) && Told(w)
      modifies store, fleet
      ensures var w2 := Readback(Dispatch(InspectEarlier(w, a), a), a);
              At(w2) && w2.phase == Finished(outcome)
      ensures Means(store.Contents(), call, outcome)
    {
      hide Inv, Linked, Means;
      LaterMeans(w, a);
      EarlierTold(w, a);
      ghost var w1 := Next(w, InspectionArrives(a.first));
      var inspection := Inspect(a.first, call, w);
      var recovered := Recover(call, view, inspection, a.firstRecoveredAt, w1);
      ghost var w2 := InspectEarlier(w, a);
      if w2.phase.Finished? { FinishedIgnores(w2, a); }
      if recovered.Err? { return OutcomeFailed(recovered.error); }
      if recovered.value.state == Applied { return OutcomeApplied; }
      if recovered.value.state == Conflict { return OutcomeConflict; }
      if inspection != Missing { return OutcomeRetryable; }
      outcome := DispatchThenReadback(call, a, recovered.value, false, w2);
    }

    /** A durable attempt, one apply, and its mandatory read-back. */
    method DispatchThenReadback(call: Call, a: Answers, view: View, first: bool, ghost w: World)
      returns (outcome: Outcome)
      requires At(w) && w.call == call && w.phase == NeedAttempt(view, first) && Told(w)
      modifies store, fleet
      ensures var w2 := Readback(Dispatch(w, a), a);
              At(w2) && w2.phase == Finished(outcome)
      ensures Means(store.Contents(), call, outcome)
    {
      hide Inv, Linked, Means;
      DispatchTold(w, a);
      DispatchedTold(w, a);
      ghost var w1 := Next(w, AttemptNow(a.attemptedAt));
      var attempted := Attempt(call, view, a.attemptedAt, w);
      ghost var w2 := Dispatch(w, a);
      if w1.phase.Finished? { FinishedIgnores(w1, a); }
      if w2.phase.Finished? { FinishedIgnores(w2, a); }
      if attempted.Err? { return OutcomeFailed(attempted.error); }
      var state := attempted.value.view.state;
      if first && state == Applied { return OutcomeAlreadyApplied; }
      if first && state == Conflict { return OutcomeConflict; }
      if state != Attempted { return OutcomeFailed(ConflictError); }
      var reply := Apply(call, a.apply, a.held, w1);
      if FleetClient.NothingSent(reply) { return OutcomeRetryable; }
      outcome := ReadBackOnce(call, a, attempted.value.view, w2);
    }

    /** The read-back of this call's apply; a second `missing` stays retryable. */
    method ReadBackOnce(call: Call, a: Answers, view: View, ghost w: World) returns (outcome: Outcome)
      requires At(w) && w.call == call && w.phase == NeedInspection(view, false) && Told(w)
      modifies store
      ensures At(Readback(w, a)) && Readback(w, a).phase == Finished(outcome)
      ensures Means(store.Contents(), call, outcome)
    {
      hide Inv, Linked, Means;
      ReadbackTold(w, a);
      var inspection := Inspect(a.second, call, w);
      var recovered := Recover(call, view, inspection, a.recoveredAt, Next(w, InspectionArrives(a.second)));
      if recovered.Err? { return OutcomeFailed(recovered.error); }
      match recovered.value.state
      case Applied => return OutcomeApplied;
      case Conflict => return OutcomeConflict;
      case _ => return OutcomeRetryable;
    }
  }
}
