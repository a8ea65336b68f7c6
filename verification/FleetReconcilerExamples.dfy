/** A concrete run: the reply to an apply is lost, the owner crashes, and one more
 *  call settles the projection without sending anything again.
 *
 *  It also shows that the assumptions of `Progress` and `SettlesIffOwner` are met.
 */
module FleetReconcilerExamples {
  import opened Options
  import opened FleetLedger
  import opened FleetLedgerInvariant
  import opened FleetLedgerExamples
  import opened FleetReconciler
  import opened FleetReconcilerRuns
  import opened FleetReconcilerDriver
  import FleetLedgerRuns
  import FleetClient

  const CALL := Call(1, T1)
  const HERE := Identity(0, 0)
  const ANSWER := FleetClient.Responds(
    FleetClient.Envelope(true, FleetClient.KindOf(FleetClient.Inspect), true, true, false, false), true)
  const LOST := FleetClient.BreaksWhileReading
  const NOTHING: map<Identity, Body> := map[]

  const EVENTS: seq<WorldEvent> := [
    DeviceRegistered(0, 0, 1, NotRequested), BindingsChange(ACTIVE), Start(CALL, 0), CapabilitiesArrive(Complete),
    AttemptNow(0), ApplyNow(LOST, Some(A)), Crash]

  const W0 := Initial(NOTHING, CALL)
  const W1 := W0.(db := D0)
  const W2 := W0.(db := D1)
  const W3 := W0.(db := D2, phase := NeedCapabilities(View(0, T1, 1, Desired)))
  const W4 := W3.(phase := NeedAttempt(View(0, T1, 1, Desired), true))
  const W5 := W4.(db := D3, phase := NeedApply(View(0, T1, 2, Attempted)))
  const W6 := W5.(fleet := map[HERE := A], sends := [0], sentByCall := 1,
                  phase := NeedInspection(View(0, T1, 2, Attempted), false))
  const CRASHED := W6.(phase := Idle)

  const ANSWERS := Answers(Complete, ANSWER, LOST, Some(A), ANSWER, 1, 1, 1, 1)

  lemma Opens()
    ensures Linked(W0.db) && Next(W0, EVENTS[0]) == W1
    ensures Linked(W1.db) && Next(W1, EVENTS[1]) == W2
  {
  }

  lemma Reserves()
    ensures Linked(W2.db) && Next(W2, EVENTS[2]) == W3
    ensures Linked(W3.db) && Next(W3, EVENTS[3]) == W4
  {
    Links();
    Reserves1();
    assert Reserve(D1, Submission(1, T1), 0).1 == Ok(Reserved(View(0, T1, 1, Desired)));
  }

  lemma Attempts()
    ensures Linked(W4.db) && Next(W4, EVENTS[4]) == W5
  {
    Links();
    Attempts1();
    assert Attempt(D2, 1, 0, 1, 1, 0).1 == Ok(Recorded(View(0, T1, 2, Attempted)));
  }

  lemma Applies()
    ensures Linked(W5.db) && Next(W5, EVENTS[5]) == W6
    ensures Linked(W6.db) && Next(W6, EVENTS[6]) == CRASHED
  {
    Links();
  }

  lemma Unroll(w: World, es: seq<WorldEvent>)
    requires Linked(w.db) && es != []
    ensures Run(w, es) == Run(Next(w, es[0]), es[1..])
  {
  }

  lemma RunCrashes()
    ensures Linked(W0.db) && Run(W0, EVENTS) == CRASHED
  {
    Opens();
    Reserves();
    Attempts();
    Applies();
    hide Next, Linked, Run;
    Unroll(W0, EVENTS);
    Unroll(W1, EVENTS[1..]);
    Unroll(W2, EVENTS[2..]);
    Unroll(W3, EVENTS[3..]);
    Unroll(W4, EVENTS[4..]);
    Unroll(W5, EVENTS[5..]);
    Unroll(W6, EVENTS[6..]);
    assert EVENTS[1..][1..] == EVENTS[2..] && EVENTS[2..][1..] == EVENTS[3..] && EVENTS[3..][1..] == EVENTS[4..]
           && EVENTS[4..][1..] == EVENTS[5..] && EVENTS[5..][1..] == EVENTS[6..] && EVENTS[6..][1..] == [];
    RunOfNothing(CRASHED);
  }

  lemma RunOfNothing(w: World)
    requires Linked(w.db)
    ensures Run(w, []) == w
  {
  }

  lemma CrashedIsSafe()
    ensures Safe(CRASHED)
  {
    RunCrashes();
    assert Safe(W0);
    hide Safe;
    RunSafe(W0, EVENTS);
  }

  /** Every assumption of `Progress` holds after the crash. */
  lemma ProgressApplies()
    ensures Safe(CRASHED) && FleetLedgerRuns.StatusOk(CRASHED.db)
    ensures Unsettled(CRASHED, CALL, 0) && FleetAnswers(CRASHED, CALL, ANSWERS) && ClockAgrees(CRASHED.db, 0, ANSWERS)
    ensures OwnsCurrentAttempt(CRASHED.db, CALL.operation, 0)
  {
    CrashedIsSafe();
    hide Safe;
    assert FleetLedgerRuns.StatusOk(D3);
  }

  lemma Unserial(w: World, es: seq<WorldEvent>)
    requires Linked(w.db) && es != []
    ensures SerializedWorldRun(w, es) <==> SerializedStep(w, es[0]) && SerializedWorldRun(Next(w, es[0]), es[1..])
  {
  }

  lemma StepsSerialized()
    ensures Linked(W2.db) && Linked(W4.db)
    ensures SerializedStep(W0, EVENTS[0]) && SerializedStep(W1, EVENTS[1]) && SerializedStep(W2, EVENTS[2])
            && SerializedStep(W3, EVENTS[3]) && SerializedStep(W4, EVENTS[4]) && SerializedStep(W5, EVENTS[5])
            && SerializedStep(W6, EVENTS[6])
  {
    Links();
    hide Linked, Reserve, Attempt, Recover;
    NoRecordsSerialized(D1, LedgerEvent(W2, EVENTS[2]));
  }

  lemma NoRecordsSerialized(db: Db, e: Option<Event>)
    requires db.records == []
    ensures e.Some? ==> FleetLedgerRuns.Serialized(db, e.value)
  {
  }

  /** The crashed world is reached by a serialized run, so the theorems over every
   *  run speak of it. */
  lemma CrashedIsReached()
    ensures ReachedBy(CRASHED, NOTHING, CALL, EVENTS)
  {
    Opens();
    Reserves();
    Attempts();
    Applies();
    RunCrashes();
    StepsSerialized();
    hide Next, Linked, Run, SerializedStep, SerializedWorldRun;
    Unserial(W6, EVENTS[6..]);
    Unserial(W5, EVENTS[5..]);
    Unserial(W4, EVENTS[4..]);
    Unserial(W3, EVENTS[3..]);
    Unserial(W2, EVENTS[2..]);
    Unserial(W1, EVENTS[1..]);
    Unserial(W0, EVENTS);
    assert EVENTS[1..][1..] == EVENTS[2..] && EVENTS[2..][1..] == EVENTS[3..] && EVENTS[3..][1..] == EVENTS[4..]
           && EVENTS[4..][1..] == EVENTS[5..] && EVENTS[5..][1..] == EVENTS[6..] && EVENTS[6..][1..] == [];
    NothingSerialized(CRASHED);
  }

  lemma NothingSerialized(w: World)
    requires Linked(w.db)
    ensures SerializedWorldRun(w, [])
  {
  }

  /** The lost apply had reached Fleet; the next call finds its body and settles on
   *  it, with the one send of the first call. */
  lemma LostReplySettles()
    ensures Run(W0, EVENTS) == CRASHED
    ensures Reconcile(CRASHED, CALL, ANSWERS).phase == Finished(OutcomeApplied)
    ensures Reconcile(CRASHED, CALL, ANSWERS).sends == [0]
  {
    RunCrashes();
    ProgressApplies();
    Progress(CRASHED, CALL, 0, ANSWERS);
    OpeningKnown(CRASHED, CALL, 0, ANSWERS) by { CrashedIsSafe(); }
    InspectedSendsNothing(Opening(CRASHED, CALL, ANSWERS), ANSWERS);
  }

  /** A call that finds a body sends nothing. */
  lemma InspectedSendsNothing(w: World, a: Answers)
    requires Linked(w.db) && w.phase.NeedInspection? && ReadBack(w, a.first).Observed?
    ensures Readback(Dispatch(InspectEarlier(w, a), a), a).sends == w.sends
  {
    hide Recover, Attempt, Linked;
    var w1 := InspectEarlier(w, a);
    assert w1.phase.Finished? && w1.sends == w.sends;
    FinishedIgnores(w1, a);
  }
}
