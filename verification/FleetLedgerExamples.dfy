/** Concrete runs on which a recovery is refused.
 *
 *  `RecoverSettlesExactlyWhen` states when a recovery settles; each lemma here
 *  gives one run for a condition that fails. The stores D0, D1, ... are written
 *  out row by row and proved to be the successive stores of the run `STORY`.
 */
module FleetLedgerExamples {
  import opened Options
  import opened FleetLedger
  import opened FleetLedgerInvariant
  import FleetLedgerRuns
  import Encoding
  import CanonicalJson
  import Json

  /** The canonical bytes of `{}` and of `{"":[]}`. */
  const A: Body := [123, 125]
  const B: Body := [123, 34, 34, 58, 91, 93, 125]
  const MEMBER: Json.Member := ("", Json.Arr([]))

  lemma OneMemberSorted()
    ensures CanonicalJson.Canonical(Json.Obj([MEMBER])) == Json.Obj([MEMBER])
  {
    CanonicalJson.SortSorted([MEMBER]);
    CanonicalJson.CanonicalObject([MEMBER]);
    var c := CanonicalJson.Canonical(Json.Obj([MEMBER]));
    assert CanonicalJson.Canonical(Json.Arr([])) == Json.Arr([]);
    assert c.members == [MEMBER];
  }

  lemma StoredTexts()
    ensures CanonicalJson.Stored(Json.Obj([])) == "{}"
    ensures CanonicalJson.Stored(Json.Obj([MEMBER])) == "{\"\":[]}"
  {
    OneMemberSorted();
    assert CanonicalJson.Canonical(Json.Obj([])) == Json.Obj([]);
    hide CanonicalJson.Canonical;
    assert Json.Compact(Json.Arr([]), false) == "[]";
    assert Json.CompactMember(MEMBER, false) == "\"\":[]";
    assert [MEMBER][1..] == [];
    assert Json.CompactMembers([MEMBER], false) == Json.CompactMember(MEMBER, false);
  }

  lemma BodiesAreCanonical()
    ensures Encoding.Utf8(CanonicalJson.Stored(Json.Obj([]))) == A
    ensures Encoding.Utf8(CanonicalJson.Stored(Json.Obj([MEMBER]))) == B
  {
    StoredTexts();
    hide CanonicalJson.Stored;
    Chars("{}");
    Chars("{\"\":[]}");
    hide Encoding.Utf8;
  }

  lemma {:induction false} Chars(s: string)
    requires Encoding.AsciiOnly(s)
    ensures |Encoding.Utf8(s)| == |s|
    ensures forall i :: 0 <= i < |s| ==> Encoding.Utf8(s)[i] as int == s[i] as int
  {
    if s != "" { Chars(s[1..]); }
  }

  const PEER := Binding(0, 0, 1)
  const T1 := Tuple(0, 0, 1, A, Sha256(A), PEER)
  const T2 := Tuple(0, 0, 2, B, Sha256(B), PEER)
  const ACTIVE := {ActiveBinding(0, 0, PEER)}

  function Counter(g: nat, s: ProjectionStatus): Device { Device(0, g, s, g, s) }

  const R1 := Record(T1, Attempted, 2, Some(0), 0, Some(0), None, None)
  const R2 := Record(T2, Attempted, 2, Some(1), 1, Some(2), None, None)
  const OPERATION1 := Operation(0, T1, 0)
  const OPERATION2 := Operation(1, T2, 1)
  const ATTEMPT1 := AttemptRow(0, 1, 1, 1, 0)
  const ATTEMPT2 := AttemptRow(1, 2, 1, 1, 2)
  const HISTORY1 := [AuditRow(0, 1, Desired, 1, 1, 0), AuditRow(0, 1, Attempted, 1, 2, 0)]

  /** A registered device with an active binding, and its first operation's
   *  reservation and attempt. */
  const D0 := EmptyDb.(generations := map[0 := 1], devices := map[0 := Counter(1, NotRequested)])
  const D1 := D0.(active := ACTIVE)
  const D2 := Db([FreshRecord(T1, 0)], map[1 := OPERATION1], [], [], HISTORY1[..1],
                 map[0 := 2], map[0 := Counter(2, Pending)], ACTIVE)
  const D3 := D2.(records := [R1], attempts := [ATTEMPT1], audit := HISTORY1)

  /** The second generation overtakes the first, which is still attempted. */
  const D4 := Db([R1, FreshRecord(T2, 1)], map[1 := OPERATION1, 2 := OPERATION2], [ATTEMPT1], [],
                 HISTORY1 + [AuditRow(1, 2, Desired, 2, 1, 1)],
                 map[0 := 3], map[0 := Counter(3, Pending)], ACTIVE)
  const D5 := D4.(records := [R1, R2], attempts := [ATTEMPT1, ATTEMPT2],
                  audit := D4.audit + [AuditRow(1, 2, Attempted, 2, 2, 2)])
  const D6 := D5.(records := [R1, R2.(state := Applied, revision := 3, appliedAt := Some(3))],
                  inspections := [InspectionRow(1, 2, 1, Observed(B), 3)],
                  devices := map[0 := Counter(3, StatusApplied)],
                  audit := D5.audit + [AuditRow(1, 2, Applied, 2, 3, 3)])

  const STORY: seq<Event> := [
    RegisterEvent(0, 0, 1, NotRequested), BindingsEvent(ACTIVE),
    ReserveEvent(Submission(1, T1), 0), AttemptEvent(1, 0, 1, 1, 0),
    ReserveEvent(Submission(2, T2), 1), AttemptEvent(2, 0, 2, 1, 2), RecoverEvent(2, 0, 2, 2, Observed(B), 3)]

  lemma Links()
    ensures Linked(D1) && Linked(D2) && Linked(D3) && Linked(D4) && Linked(D5) && Linked(D6)
  {
  }

  lemma Reserves1()
    ensures Linked(D1) && Reserve(D1, Submission(1, T1), 0).0 == D2
  {
    Links();
    assert D2 == WithReservation(D1, Submission(1, T1), 0);
  }

  lemma Attempts1()
    ensures Linked(D2) && Attempt(D2, 1, 0, 1, 1, 0).0 == D3
  {
    Links();
    assert D3 == WithAttempt(D2, 1, 0, 0);
  }

  lemma Reserves2()
    ensures Linked(D3) && Reserve(D3, Submission(2, T2), 1).0 == D4
  {
    Links();
    assert !Keyed(R1, 0, 2);
    assert FindRecord([R1], 0, 2).None?;
    assert D4 == WithReservation(D3, Submission(2, T2), 1);
  }

  lemma Attempts2()
    ensures Linked(D4) && Attempt(D4, 2, 0, 2, 1, 2).0 == D5
  {
    Links();
    assert CountAttempts([ATTEMPT1], 1) == 0;
    assert D5 == WithAttempt(D4, 2, 1, 2);
  }

  lemma Recovers2()
    ensures Linked(D5) && Recover(D5, 2, 0, 2, 2, Observed(B), 3).0 == D6
  {
    Links();
    assert D6 == WithSettlement(WithInspection(D5, 2, 1, 1, Observed(B), 3), 2, 1, Applied, 3);
  }

  /** One event further along the story. */
  lemma Follow(i: nat, db: Db)
    requires i < |STORY| && Inv(EmptyDb) && FleetLedgerRuns.Run(EmptyDb, STORY[..i]) == db
    ensures Inv(db) && FleetLedgerRuns.Run(EmptyDb, STORY[..i + 1]) == Step(db, STORY[i])
  {
    hide Inv;
    assert STORY[..i + 1] == STORY[..i] + [STORY[i]];
    FollowFrom(EmptyDb, STORY[..i], STORY[i]);
  }

  lemma {:induction false} FollowFrom(db: Db, es: seq<Event>, e: Event)
    requires Inv(db)
    ensures FleetLedgerRuns.Run(db, es + [e]) == Step(FleetLedgerRuns.Run(db, es), e)
    decreases |es|
  {
    hide Inv;
    if es == [] {
      assert [] + [e] == [e];
      StepKeeps(db, e);
    } else {
      StepKeeps(db, es[0]);
      assert (es + [e])[1..] == es[1..] + [e];
      FollowFrom(Step(db, es[0]), es[1..], e);
    }
  }

  lemma EmptyRun()
    ensures Inv(EmptyDb) && FleetLedgerRuns.Run(EmptyDb, STORY[..0]) == EmptyDb
  {
  }

  /** The stores written out above are the stores of one run. */
  lemma StoryIsARun()
    ensures FleetLedgerRuns.Run(EmptyDb, STORY[..4]) == D3
    ensures FleetLedgerRuns.Run(EmptyDb, STORY) == D6
  {
    hide Inv, Reserve, Attempt, Recover, Linked, FleetLedgerRuns.Run;
    EmptyRun();
    Follow(0, EmptyDb);
    Follow(1, D0);
    Reserves1();
    Follow(2, D1);
    Attempts1();
    Follow(3, D2);
    Reserves2();
    Follow(4, D3);
    Attempts2();
    Follow(5, D4);
    Recovers2();
    Follow(6, D5);
    assert STORY[..7] == STORY;
  }

  /** A second operation may carry the same tuple and is answered, but it cannot
   *  record any inspection of the first one's attempt. */
  lemma SecondOperationCannotRecover(inspection: Inspection, now: nat)
    ensures FleetLedgerRuns.Run(EmptyDb, STORY[..4]) == D3 && Linked(D3)
    ensures var d2 := Reserve(D3, Submission(2, T1), 0);
            && d2.1 == Ok(Replayed(View(0, T1, 2, Attempted)))
            && Linked(d2.0)
            && Recover(d2.0, 2, 0, 1, 2, inspection, now) == (d2.0, Err(SqlError))
  {
    StoryIsARun();
    Replays1();
    RefusesForeign(inspection, now);
    hide *;
  }

  const REPLAYED := D3.(operations := map[1 := OPERATION1, 2 := Operation(0, T1, 0)])

  lemma Replays1()
    ensures Linked(D3) && Reserve(D3, Submission(2, T1), 0) == (REPLAYED, Ok(Replayed(View(0, T1, 2, Attempted))))
  {
    Links();
    hide Linked;
    assert Keyed(R1, 0, 1);
    assert FindRecord([R1], 0, 1) == Some(0);
    assert REPLAYED == WithOperation(D3, Submission(2, T1), 0, 0);
  }

  lemma RefusesForeign(inspection: Inspection, now: nat)
    ensures Linked(REPLAYED) && Recover(REPLAYED, 2, 0, 1, 2, inspection, now) == (REPLAYED, Err(SqlError))
  {
    hide FindRecord, WithSettlement, WithInspection, ClockCovers;
  }

  /** After a `missing` read at time 5, a body read at time 4 is refused, even the
   *  desired one. */
  lemma ClockSteppedBack()
    ensures FleetLedgerRuns.Run(EmptyDb, STORY[..4]) == D3 && Linked(D3)
    ensures var d2 := Recover(D3, 1, 0, 1, 2, Missing, 5).0;
            Linked(d2) && Recover(d2, 1, 0, 1, 2, Observed(A), 4) == (d2, Err(SqlError))
  {
    StoryIsARun();
    ReadsMissing();
    RefusesEarlier();
    hide *;
  }

  const READ := D3.(inspections := [InspectionRow(0, 1, 0, Missing, 5)])

  lemma ReadsMissing()
    ensures Linked(D3) && Recover(D3, 1, 0, 1, 2, Missing, 5).0 == READ
  {
    Links();
    hide Linked, WithSettlement, ClockCovers;
    assert READ == WithInspection(D3, 1, 0, 0, Missing, 5);
  }

  lemma RefusesEarlier()
    ensures Linked(READ) && Recover(READ, 1, 0, 1, 2, Observed(A), 4) == (READ, Err(SqlError))
  {
    hide WithSettlement, WithInspection;
    assert READ.inspections[0].at == 5;
    assert !ClockCovers(READ, 0, 4);
  }

  /** Generation 2 is reserved and applied while generation 1 is only attempted;
   *  then generation 1 can no longer be found in conflict. */
  lemma UnserializedRecoveryRefused()
    ensures FleetLedgerRuns.Run(EmptyDb, STORY) == D6 && Linked(D6) && D6.records[0].state == Attempted
    ensures Recover(D6, 1, 0, 1, 2, Observed(B), 9) == (D6, Err(ConflictError))
  {
    StoryIsARun();
    Links();
    InspectsLate();
    hide Linked, Inspect, FleetLedgerRuns.Run;
  }

  lemma InspectsLate()
    ensures Inspect(D6, 1, 0, 0, Observed(B), 9) == (D6, Err(ConflictError))
  {
    hide WithSettlement, WithInspection;
    assert Verdict(T1, B) == Conflict;
  }
}
