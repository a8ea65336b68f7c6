# Nodescale: verified models of its hard cores

Nodescale admits devices to private networks. A control plane keeps a durable ledger of what it
wants a remote Fleet to enforce, redeems invitations through a network provider such as Headscale,
limits who may try, and lets local tools page through what it knows. This project models the parts
of it that carry protocols, arithmetic or encodings, and proves what they promise.

* **Fleet projections** (`FleetLedger*.dfy`, `FleetReconciler*.dfy`, `FleetClient.dfy`). The ledger
  holds projection records, operations, attempts, inspections, audit rows and generation counters.
  Its three transactions are functions on a value `Db`; the class `StateStore` performs them row by
  row, with the table checks and triggers of the migration and a rollback, and is proved to agree.
  The reconciler is a state machine in which a crash may fall between any two durable or remote
  actions and any reply may vanish; the class `Reconciler` is `reconcile_one` itself, proved to take
  exactly those steps.
* **Admission** (`Admission*.dfy`). Token buckets per source with a bounded table, stale eviction, an
  overflow bucket and a global one. The class updates them in place; the bounds are about whole runs.
* **Canonical encodings** (`Json*.dfy`, `Canonical*.dfy`, `ProjectionDocument.dfy`, `GeneratedBody.dfy`,
  `DocumentText.dfy`, `Encoding.dfy`, `DesiredProjection*.dfy`, `DesiredBody.dfy`). The ASCII JSON writer
  and the stored form against an independent reader of RFC 8259 (sections 2 to 7): what it finds in them,
  in which order, and that no text is shorter; what equality of two bodies means; the length-prefixed byte
  stream under the content digest; and what of a projection reaches Fleet.
* **Providers and redemption** (`Mutations.dfy`, `FakeProvider.dfy`, `HeadscaleProvider.dfy`,
  `Redemption.dfy`, `RedemptionWorker.dfy`). Which outcomes may be recorded as definitely not
  applied, and what happens to every issued credential.
* **Paging and scanning** (`Paging.dfy`, `WireText.dfy`, `ObservationApi.dfy`, `OperatorApi.dfy`,
  `ApiText.dfy`, `SecretScan.dfy`). Cursor pages trimmed to the size of their text, the runtime's sweep, and the chunked secret scan.

Time counts nanoseconds in the admission modules and milliseconds elsewhere. SHA-256, UUID generation
and the fake provider's FNV digests are uninterpreted functions, so nothing assumes that they do not
collide. Clocks, replies, injected failures and the choice of a stale source are parameters that
range over every possibility.

## What turned out otherwise

* One call does not always settle an attempted projection. The inspection trigger (migration 0007,
  lines 129-139) accepts an inspection only from the operation that made the current attempt. A
  second operation carrying the same tuple is answered as a replay, yet its inspections are refused.
  `FleetReconcilerRuns.SettlesIffOwnerOfEveryRun` gives the exact condition in every reachable state,
  `ForeignCallsNeverSettle` says that no run of other operations helps, and
  `FleetLedgerExamples.SecondOperationCannotRecover` is a concrete run.
* The latest-inspection query orders by time, so after the clock steps back a body read later can be
  hidden by an earlier missing row and the recovery is refused
  (`FleetLedgerStore.LatestIsTheInsertedRow`, `FleetLedgerExamples.ClockSteppedBack`).
* Without serialization per device, recovering generation 1 can be refused because generation 2
  already settled the device's status (`FleetLedgerExamples.UnserializedRecoveryRefused`);
  `FleetLedgerRuns.RecoverSettlesExactlyWhen` is the exact condition.
* The refill of a bucket is capped at 32 bits. A source's window bound therefore fails once a run
  spans 2^32 + 1 refill intervals, and holds for every shorter run
  (`AdmissionHorizon.WindowLawExactly`). A small global bucket can hide the failure for a while only
  (`AdmissionHorizon.EveryLimitsFail`).
* A revocation at Headscale can be reported as a conflict, which its caller records as blocked, after
  the key was in fact expired. `HeadscaleProvider.Headscale.RevokeJoinCredential` gives the exact
  condition: the list read back names the key more than once. `Redemption.RepeatedListBlocks` is a
  concrete case.
* The digest of a desired projection covers its display name, membership and roles, but the body that
  is compared does not. Under its operation a projection changed only there is answered as a replay
  (`DesiredBody.BodyForgets`, `DesiredBody.ChangeIsReplayOrRefused`).

## Model

| member | source | states |
|---|---|---|
| FleetLedgerRuns.LedgerOfEveryRun | crates/nodescale-state/src/n7.rs:158-354 | in every reachable store, replaying the audit rows of a record gives its state and number of attempts, and its revision is 1, 2 or 3 accordingly |
| FleetLedgerRuns.AttemptNumbersOfEveryRun | crates/nodescale-state/src/n7.rs:429-454 | attempts of a record are numbered exactly 1..k, once each and in row order, and the current attempt is number k |
| FleetLedgerRuns.SettledMeansEvidence | crates/nodescale-state/src/n7.rs:315-353 | an applied record keeps an inspection of its current attempt that read back the desired body, a conflicting one some other body, and no other record ever has a body read back |
| FleetLedgerRuns.RunExtends | crates/nodescale-state/migrations/0007_fleet_projection.sql:89-166 | no event of any run rewrites a settled record, a tuple, an operation or an append-only row |
| FleetLedgerRuns.ReplayForEver | crates/nodescale-state/src/n7.rs:160-192 | an accepted submission repeated at any later point changes nothing and names the same projection |
| FleetLedgerRuns.ReuseRefused | crates/nodescale-state/src/n7.rs:160-174 | an operation ID with any other tuple is refused for ever after |
| FleetLedgerRuns.OneBodyPerGeneration | crates/nodescale-state/src/n7.rs:175-192 | two operations for one device and generation carry the same tuple, body included, and name one projection |
| FleetLedgerRuns.GenerationsContiguous | crates/nodescale-state/src/n7.rs:193-234 | from a device's first record up to just below its counter, each generation has exactly one record |
| FleetLedgerRuns.GenerationsOfEveryRun | crates/nodescale-state/src/n7.rs:481-543 | in every reachable store the three copies of the counter agree, generations are gapless below it and absent from it on |
| FleetLedgerRuns.CounterMovesByOne | crates/nodescale-state/src/n7.rs:481-543 | a reservation moves all copies by exactly one; a replay leaves counters and records as they were, a refusal or an error the whole store |
| FleetLedgerRuns.ReservesExactlyWhen | crates/nodescale-state/src/n7.rs:160-238 | a submission makes a record if and only if its operation and key are new, its generation is the counter and fits, network and binding match, and the status admits it; it is a replay if and only if the very same tuple is stored |
| FleetLedgerRuns.AttemptsExactlyWhen | crates/nodescale-state/src/n7.rs:240-298 | an attempt is recorded if and only if the projection is unsettled at the expected revision with an active binding and the clock is not before its record; it becomes the current one with the next number |
| FleetLedgerRuns.StatusOfEverySerializedRun | crates/nodescale-state/src/n7.rs:545-568 | when a device's next generation waits for the previous one, its status is what its highest record calls for |
| FleetLedgerRuns.SerializedRecoveryAdmitted | crates/nodescale-domain/src/lib.rs:563-594 | in such runs no status transition of a recovery is refused |
| FleetLedgerRuns.RecoverSettlesExactlyWhen | crates/nodescale-state/src/n7.rs:300-354 | a recovery with a body settles if and only if its operation made the current attempt, the clock covers earlier inspections and the record, and the status admits it |
| FleetLedgerAnswers.ReserveAnswers | crates/nodescale-state/src/n7.rs:160-238 | every answer of a reservation, if and only if: refused when the operation or the key holds another tuple, or a new key at its counter has another network or no active binding; not found without a counter; a stale generation, with both numbers, when the counter is another one; and each remaining error likewise |
| FleetLedgerAnswers.ReservedRows | crates/nodescale-state/src/n7.rs:193-238 | a new reservation adds exactly one record, one operation and one audit row, in full, and moves the counter |
| FleetLedgerAnswers.ReplayedRows | crates/nodescale-state/src/n7.rs:160-192 | a replay adds at most the new operation on the same record, and nothing else |
| FleetLedgerAnswers.AttemptAnswers | crates/nodescale-state/src/n7.rs:240-298 | every answer of recording an attempt, if and only if |
| FleetLedgerAnswers.AttemptedRows | crates/nodescale-state/src/n7.rs:240-298 | a recorded attempt adds its one row and audit row, and moves only its record |
| FleetLedgerAnswers.RecoverAnswers | crates/nodescale-state/src/n7.rs:300-354 | every answer of a recovery, the rows of each, and the status and times of a settled record |
| FleetLedgerInvariant.ReserveKeeps | crates/nodescale-state/src/n7.rs:160-238 | reserving keeps the whole ledger invariant |
| FleetLedgerInvariant.AttemptKeeps | crates/nodescale-state/src/n7.rs:240-298 | recording an attempt keeps the whole ledger invariant |
| FleetLedgerInvariant.RecoverKeeps | crates/nodescale-state/src/n7.rs:300-354 | recovering keeps the whole ledger invariant |
| FleetLedgerStore.MaxIsCount | crates/nodescale-state/src/n7.rs:443-454 | the highest attempt number of a projection is how many attempts it has |
| FleetLedgerStore.LatestIsTheInsertedRow | crates/nodescale-state/src/n7.rs:315-339 | the latest-inspection query returns the row just inserted if and only if no earlier row of the attempt is stamped later |
| FleetLedgerStore.StateStore.ReserveN7Projection | crates/nodescale-state/src/n7.rs:160-238 | the transaction over rows and triggers does exactly what `Reserve` says, whose every answer and row `FleetLedgerAnswers` spells out, or leaves every table as it was |
| FleetLedgerStore.StateStore.RecordDispatchAttempt | crates/nodescale-state/src/n7.rs:240-298 | the transaction does exactly what `Attempt` says, or leaves every table as it was |
| FleetLedgerStore.StateStore.RecoverFromInspection | crates/nodescale-state/src/n7.rs:300-354 | the transaction does exactly what `Recover` says, or leaves every table as it was |
| FleetLedgerStore.StateStore.AdvanceGeneration | crates/nodescale-state/src/n7.rs:481-543 | the fenced updates move the three copies by one unless the next value exceeds a column |
| FleetLedgerExamples.StoryIsARun | crates/nodescale-state/src/n7.rs:158-354 | the stores of the counterexamples are reached by one concrete run |
| FleetLedgerExamples.SecondOperationCannotRecover | crates/nodescale-state/migrations/0007_fleet_projection.sql:129-139 | a concrete run in which a replayed operation cannot record any inspection |
| FleetLedgerExamples.ClockSteppedBack | crates/nodescale-state/src/n7.rs:315-339 | a concrete run in which a stepped-back clock hides the body just read |
| FleetLedgerExamples.UnserializedRecoveryRefused | crates/nodescale-state/src/n7.rs:340-351 | a concrete run in which a later generation blocks an earlier one's conflict |
| FleetLedgerExamples.BodiesAreCanonical | crates/nodescale-state/src/n7.rs:596-604 | the two bodies of these runs are canonical texts, as the checked constructors demand |
| FleetReconciler.StepSafe | crates/nodescale-projection/src/lib.rs:183-419 | every action, crash and change of the surroundings keeps the ledger invariant and the owner's safety invariant |
| FleetReconcilerRuns.NoBlindRetry | crates/nodescale-projection/src/lib.rs:183-419 | over every run with crashes and lost replies, each apply has its own attempt row, a call sends at most one, and attempt n+1 exists only if a missing inspection of attempt n is on record |
| FleetReconcilerRuns.AttemptStoredBeforeApply | crates/nodescale-projection/src/lib.rs:242-284 | when an apply may reach Fleet, its attempt is already stored, current, for the tuple sent, and used by no earlier apply |
| FleetReconcilerRuns.MissingStoredBeforeRetry | crates/nodescale-projection/src/lib.rs:308-419 | when a further attempt is stored, every earlier one has already been read back as missing |
| FleetReconcilerRuns.RunExtends | crates/nodescale-projection/src/lib.rs:183-419 | settled records and append-only rows survive every run with crashes |
| FleetReconcilerRuns.StatusOfEverySerializedWorldRun | crates/nodescale-projection/src/lib.rs:183-419 | in every run with crashes in which a device's next generation waits for the previous one, its status is what its highest record calls for |
| FleetReconcilerRuns.ProgressOfEveryRun | crates/nodescale-projection/src/lib.rs:217-419 | from any unsettled state that such a run reaches, one call by the attempt's operation with Fleet answering settles it: applied if Fleet held nothing, or the desired body which an apply leaves alone; a conflict if it was attempted and Fleet held another |
| FleetReconcilerRuns.SettlesIffOwnerOfEveryRun | crates/nodescale-projection/src/lib.rs:217-419 | in any such state, such a call settles the projection if and only if its operation made the current attempt or there is none |
| FleetReconcilerRuns.ForeignCallsNeverSettle | crates/nodescale-projection/src/lib.rs:308-419 | no run of calls by other operations moves an attempted projection |
| FleetReconcilerRuns.ReconcileIsRun | crates/nodescale-projection/src/lib.rs:183-284 | one call is a run of its actions in program order |
| FleetReconcilerOutcomes.OutcomeMeans | crates/nodescale-projection/src/lib.rs:183-419 | from every state between calls: a call whose operation the store knows is applied exactly with one of the two applied outcomes, in conflict exactly with that one, and attempted with a retryable one; any other call ends refused or failed |
| FleetReconcilerOutcomes.OutcomesExactly | crates/nodescale-projection/src/lib.rs:183-419 | which outcome comes out, exactly, from the record after the reservation, its binding and maker, what Fleet holds and what the replies and the clock let through |
| FleetReconcilerOutcomes.OutcomeOfEveryRun | crates/nodescale-projection/src/lib.rs:183-419 | so in every state that a run with crashes and lost replies reaches |
| FleetReconcilerDriver.Reconciler.ReconcileOne | crates/nodescale-projection/src/lib.rs:183-284 | the straight-line driver over store and Fleet ends in exactly the world and outcome of `Reconcile`; the outcome means what the stored record is, and comes out exactly when `OutcomeByRecord` says |
| FleetReconcilerDriver.Reconciler.InspectThenRetry | crates/nodescale-projection/src/lib.rs:308-419 | reading back an earlier attempt leads to a new apply only after an authoritative missing, and its outcome means what the stored record is |
| FleetReconcilerDriver.Reconciler.DispatchThenReadback | crates/nodescale-projection/src/lib.rs:242-284 | attempt, apply and read-back happen in this order and as the machine says, and the outcome means what the stored record is |
| FleetReconcilerDriver.Reconciler.ReadBackOnce | crates/nodescale-projection/src/lib.rs:308-419 | a second missing or unavailable answer stays retryable and the record attempted; applied or conflict is told only of a record in that state |
| FleetReconcilerExamples.LostReplySettles | crates/nodescale-projection/src/lib.rs:183-419 | a concrete run: an apply whose reply is lost, a crash, and a call that settles the projection without sending again |
| FleetReconcilerExamples.ProgressApplies | crates/nodescale-projection/src/lib.rs:217-419 | the assumptions of the progress theorem hold in that run |
| FleetReconcilerExamples.CrashedIsReached | crates/nodescale-projection/src/lib.rs:183-419 | the crashed world of that run is one that a serialized run reaches |
| Admission.AdmitKeeps | crates/nodescale-redemption-ingress/src/lib.rs:299-376 | tokens stay within bursts and tracked sources within their maximum, whatever the clock shows |
| Admission.SharedBucket | crates/nodescale-redemption-ingress/src/lib.rs:383-390 | two addresses share a bucket exactly when they are equal or one is the IPv4-mapped form of the other |
| AdmissionStart.StartExactly | crates/nodescale-redemption-ingress/src/lib.rs:275-376 | whatever came before at the start instant, a request then is admitted if and only if global tokens are left and its source has some of its initial ones or, for a newcomer at a full table, the one overflow token is left |
| AdmissionStart.OneOverflow | crates/nodescale-redemption-ingress/src/lib.rs:288-293 | after as many new sources as the table holds, the next one is admitted through the overflow bucket and the one after it is not |
| AdmissionStart.NothingLost | crates/nodescale-redemption-ingress/src/lib.rs:240-376 | as long as no token is lost at a burst, admissions plus tokens equal the initial tokens plus the intervals passed, for the global bucket and, with one initial token, for the overflow bucket |
| AdmissionStart.StaleExactly | crates/nodescale-redemption-ingress/src/lib.rs:314-327 | a source that emptied its bucket becomes stale exactly when that bucket would be full again |
| AdmissionStart.SeenExactly | crates/nodescale-redemption-ingress/src/lib.rs:299-376 | a tracked source is last seen now, limited or not, unless the clock stepped back; a newcomer is tracked exactly if admitted to a bucket of its own |
| AdmissionController.InMemoryAdmissionController.Admit | crates/nodescale-redemption-ingress/src/lib.rs:299-376 | the in-place controller does exactly what `Admit` says for the stale source its search returned; `AdmissionStart` says what it starts with |
| AdmissionController.InMemoryAdmissionController.FindStale | crates/nodescale-redemption-ingress/src/lib.rs:314-327 | the search returns a stale source if and only if there is one |
| AdmissionBounds.RefillPathIndependent | crates/nodescale-redemption-ingress/src/lib.rs:245-259 | below 2^32 intervals, refilling at any increasing times gives the tokens and phase of one refill at the last |
| AdmissionBounds.RefillIdempotentExactly | crates/nodescale-redemption-ingress/src/lib.rs:245-259 | refilling twice at one instant changes nothing if and only if the first refill was not capped |
| AdmissionBounds.RetryAfterExact | crates/nodescale-redemption-ingress/src/lib.rs:227-238 | a limited bucket has a token from exactly one interval after its phase; waiting `retry_after` reaches it if and only if the clock had not stepped back behind the phase |
| AdmissionBounds.Conservation | crates/nodescale-redemption-ingress/src/lib.rs:240-376 | on any clock, admissions plus tokens never exceed initial tokens plus the intervals passed, for the global and the overflow bucket, nor what the elapsed time has paid for |
| AdmissionBounds.SharedBuckets | crates/nodescale-redemption-ingress/src/lib.rs:350-375 | a limited request debits neither shared bucket; an admitted one debits the global bucket and at most the overflow one, each of a token it has |
| AdmissionBounds.SourcesDebited | crates/nodescale-redemption-ingress/src/lib.rs:350-375 | a limited request debits no source, and an admitted one only its own |
| AdmissionBounds.AdmittedExactly | crates/nodescale-redemption-ingress/src/lib.rs:299-376 | from the start on, a request is admitted if and only if its source's bucket and the global one have a token; a limited one is told the wait of the first without |
| AdmissionWindow.WindowBound | crates/nodescale-redemption-ingress/src/lib.rs:299-376 | on a monotone clock below the horizon, a source's own admissions in any window are at most burst + whole intervals of the window + 1, however often it is evicted and returns |
| AdmissionHorizon.WindowLawExactly | crates/nodescale-redemption-ingress/src/lib.rs:245-259 | where the global bucket can admit burst + 2 requests within one interval of the source's, the window bound holds of every run of a span if and only if the span is below 2^32 + 1 intervals |
| AdmissionHorizon.BelowHorizon | crates/nodescale-redemption-ingress/src/lib.rs:245-259 | below the horizon the window bound holds whatever the global burst |
| AdmissionHorizon.EveryLimitsFail | crates/nodescale-redemption-ingress/src/lib.rs:245-259 | under every limits, however small the global bucket, a long enough idle span lets burst + 2 requests in at one instant, by a run written out |
| Json.CompactRoundTrip | crates/nodescale-fleet-client/src/lib.rs:607-661 | a reader of RFC 8259 recovers every value from its compact text, numbers and surrogate pairs included |
| Json.CompactAscii | crates/nodescale-fleet-client/src/lib.rs:640-661 | the text is printable ASCII only |
| JsonShortest.CompactShortest | crates/nodescale-fleet-client/src/lib.rs:607-661 | no text that reads as a value is shorter than its compact text, and none in printable ASCII shorter than its escaped text: no blanks and no needless escapes |
| JsonShortest.CanonicalShortest | crates/nodescale-fleet-client/src/lib.rs:607-661 | the same of the hashed and of the stored text against every text of the value with its members in any order |
| JsonShortest.EscapesLower | crates/nodescale-fleet-client/src/lib.rs:640-661 | a character that does not stand for itself is escaped without capital letters |
| CanonicalJson.WrittenRoundTrip | crates/nodescale-fleet-client/src/lib.rs:607-638 | the written text gives back the canonical value, whose keys `CanonicalOrder.WrittenInOrder` shows in ascending order |
| CanonicalJson.SameTextExactly | crates/nodescale-fleet-client/src/lib.rs:607-638 | two values have one text if and only if they differ in member order at most |
| CanonicalJson.MemberOrderIrrelevant | crates/nodescale-fleet-client/src/lib.rs:623-637 | the text of an object does not depend on the order its members came in |
| CanonicalOrder.WrittenInOrder | crates/nodescale-fleet-client/src/lib.rs:623-637 | in the value read back, at every depth, of two neighbouring keys the first is a prefix of the second or has the smaller character where they first differ; along every path the value is the one written |
| CanonicalOrder.StoredInOrder | crates/nodescale-projection/src/lib.rs:508-529 | the same of the stored text |
| CanonicalOrder.PrecedesInBytes | crates/nodescale-fleet-client/src/lib.rs:625-626 | this order is the byte order of the UTF-8 texts |
| CanonicalJson.SameStoredExactly | crates/nodescale-projection/src/lib.rs:508-529 | two stored texts, escaped only as far as RFC 8259 requires, are equal if and only if the values differ in member order at most |
| CanonicalJson.StoredIsCanonical | crates/nodescale-state/src/n7.rs:596-604 | a stored text parsed and stored again is the same text, so the check for canonical bytes accepts it |
| CanonicalJson.CanonicalIdempotent | crates/nodescale-state/src/n7.rs:596-604 | a canonical value is its own canonical value |
| CanonicalJsonWriter.WriteCanonicalJson | crates/nodescale-fleet-client/src/lib.rs:607-638 | the writer appends exactly the canonical text to its output, which `CanonicalOrder` and `JsonShortest` pin by what a reader finds in it |
| CanonicalJsonWriter.WriteAsciiJsonString | crates/nodescale-fleet-client/src/lib.rs:640-661 | the string writer appends exactly the quoted, escaped text |
| ProjectionDocument.PreimageExactly | crates/nodescale-fleet-client/src/lib.rs:256-280 | two documents have the same hash preimage if and only if they agree on every hashed field, grants counted as a multiset |
| ProjectionDocument.GrantsAsASet | crates/nodescale-fleet-client/src/lib.rs:223-247 | the built document depends on which grants are given, and on neither their order nor their repetition |
| ProjectionDocument.CanonicalContentHash | crates/nodescale-fleet-client/src/lib.rs:256-280 | the hash is taken of the text the writer built |
| GeneratedBody.BodyExactly | crates/nodescale-projection/src/lib.rs:508-545 | two records generated by Fleet have the same body if and only if they agree on state, generations, hash, operations and provenance |
| GeneratedBody.VerdictExactly | crates/nodescale-projection/src/lib.rs:480-506 | a read-back settles a projection as applied if and only if every field Fleet returned is the desired one |
| DocumentText.PreimageSays | crates/nodescale-projection/src/lib.rs:431-478 | the hashed text of a valid projection, read back, names source, network, device, generations, operation and provenance under their keys, the operation being upsert, disable or remove as enrolled |
| DocumentText.BodySays | crates/nodescale-projection/src/lib.rs:480-545 | the body expected back names the state, active, disabled or removed as enrolled, the generations, the content hash and the provenance under their keys |
| DocumentText.GrantsListed | crates/nodescale-fleet-client/src/lib.rs:223-280 | both texts list exactly the operations the projection grants |
| DocumentText.GrantsAscend | crates/nodescale-fleet-client/src/lib.rs:231-232 | in both texts the operations are in ascending order, each once |
| DesiredBody.BodyExactly | crates/nodescale-projection/src/lib.rs:432-478 | two valid projections are expected back with the same body if and only if they agree on network, device, enrollment, the three generations, the binding's provenance and the grants |
| DesiredBody.BodyForgets | crates/nodescale-domain/src/n7.rs:525-562 | of two valid projections with the same body, the digested byte streams are the same if and only if display name, membership and roles are |
| DesiredBody.TupleExactly | crates/nodescale-projection/src/lib.rs:192-209 | two valid projections are submitted as the same tuple if and only if they agree on all that reaches Fleet |
| DesiredBody.SubmittedAs | crates/nodescale-projection/src/lib.rs:192-209 | the submitted tuple names the network, device, generation, body, hash and binding of the projection |
| DesiredBody.ChangeIsReplayOrRefused | crates/nodescale-state/src/n7.rs:160-192 | under an operation already accepted, after any later run, another projection is answered as a replay if it differs only in what does not reach Fleet, and refused otherwise |
| Sorting.SortDedupExactly | crates/nodescale-fleet-client/src/lib.rs:231-232 | sorting and deduplicating two lists gives the same list if and only if they have the same elements |
| DesiredProjection.ComputeContentDigest | crates/nodescale-domain/src/n7.rs:525-562 | the hasher was fed exactly the framed parts |
| DesiredProjectionProofs.FramesInjective | crates/nodescale-domain/src/n7.rs:666-669 | length-prefixed parts decode uniquely |
| DesiredProjectionProofs.StreamExactly | crates/nodescale-domain/src/n7.rs:477-562 | two valid projections have one byte stream if and only if they are equal in every field but the digest |
| DesiredProjectionProofs.StreamRead | crates/nodescale-domain/src/n7.rs:525-562 | the hashed stream is the twelve header parts, the roles in declaration order and the grants, with their end markers, each after its length in eight bytes, the highest first |
| DesiredProjectionProofs.OneDigest | crates/nodescale-domain/src/n7.rs:477-523 | of a projection that passes, exactly the hash of its own stream is a valid digest |
| DesiredProjectionProofs.ValidExactly | crates/nodescale-domain/src/n7.rs:477-523 | validation admits exactly the projections that are named, numbered from 1, of their own device, with a role, with nothing to run and without grants once disabled |
| DesiredProjectionProofs.TransitionExactly | crates/nodescale-domain/src/n7.rs:408-475 | disabling or removing succeeds exactly on a valid, not yet removed projection with a later generation, and each other case has its error; the result is valid, has no grants and a byte stream of its own |
| DesiredProjectionProofs.RemovalIsTerminal | crates/nodescale-domain/src/n7.rs:417-430 | after a removal every transition is refused |
| FleetClient.ApplyExactly | crates/nodescale-fleet-client/src/lib.rs:436-605 | an apply is done exactly when a success of its kind was read and decoded, rejected exactly when an error document about the request was, not sent exactly when too large or refused a connection, and ambiguous otherwise |
| FleetClient.InspectExactly | crates/nodescale-fleet-client/src/lib.rs:452-596 | an inspection is answered exactly when a success of its kind was read and decoded |
| HeadscaleProvider.CanonicalPositiveExactly | crates/nodescale-provider-headscale/src/lib.rs:1879-1887 | a text is canonical if and only if it is the decimal form of a positive 64-bit number, and then it is a safe identifier |
| HeadscaleProvider.ReadinessExactly | crates/nodescale-provider-headscale/src/lib.rs:883-908 | a server is ready exactly when it is the pinned release v0.29.3, not dirty, and connected to its database; otherwise the first unread answer or a blocked compatibility is reported |
| HeadscaleProvider.IntentInNumbers | crates/nodescale-provider-headscale/src/lib.rs:1433-1466 | a creation is for one use by a decimal user ID, with at most four of six tags and an expiry 5 to 60 minutes away, 15 if none is given |
| HeadscaleProvider.VerdictExactly | crates/nodescale-provider-headscale/src/lib.rs:1234-1255 | a list that names a key twice is repeated; one that does not name it, or names it once with an expiry that has come, shows it revoked |
| HeadscaleProvider.Headscale.CreateJoinCredential | crates/nodescale-provider-headscale/src/lib.rs:1019-1227 | which answer comes out, exactly: unsent for lack of authorization, intent, readiness or its one user, with the class of the failing read; once sent, confirmed exactly when the key asked for was answered and the list read back, true or not, has it, an authentication failure exactly for a refused one, and ambiguous otherwise; a definite outcome means no key was gained |
| HeadscaleProvider.Headscale.RevokeJoinCredential | crates/nodescale-provider-headscale/src/lib.rs:1228-1274 | every outcome, exactly: revoked when a list read before or after the write shows the key absent or expired, which is so if that list is truthful; other keys are untouched; once the write is sent, a refusal is reported exactly for a refused authentication or a list read back that repeats the key, and an unread list is ambiguous |
| FakeProvider.Provider.ObserveJoin | crates/nodescale-provider-fake/src/lib.rs:121-168 | a join uses up one active credential, adds a node with a name and key of its own beside every earlier node, and changes nothing else; it is refused without one, with the error of what stood in the way; active credentials plus joins stay within credentials created |
| FakeProvider.NamesApart | crates/nodescale-provider-fake/src/lib.rs:136-142 | no two nodes get the same name or stable key |
| FakeProvider.Provider.CreateCredential | crates/nodescale-provider-fake/src/lib.rs:283-306 | creation keeps active credentials plus joins within credentials created |
| FakeProvider.Provider.RevokeCredential | crates/nodescale-provider-fake/src/lib.rs:308-319 | revocation deactivates exactly the named credential or changes nothing |
| FakeProvider.Provider.GetNode | crates/nodescale-provider-fake/src/lib.rs:326-334 | a node is found exactly under its full identity |
| FakeProvider.MutationProvider.ExecuteMutation | crates/nodescale-provider-fake/src/lib.rs:698-1038 | for every state, injected failure and script, the outcome and the new inventory: refused without a change before it is sent, refused as impossible, satisfied already, or applied and answered as the read-back is scripted; evidence is true afterwards |
| FakeProvider.DisturbedExactly | crates/nodescale-provider-fake/src/lib.rs:730-1038 | a disturbed read-back leaves what an undisturbed one would and is answered by its kind; only a lost response is still taken for success, and never for a credential |
| FakeProvider.MutationProvider.Create | crates/nodescale-provider-fake/src/lib.rs:816-850 | a definite outcome of a creation leaves the inventory as it was, and a disturbed one is ambiguous |
| FakeProvider.MutationProvider.ReadBack | crates/nodescale-provider-fake/src/lib.rs:897-942 | the read after a write cannot fail outright, so no refusal hides an applied write |
| Redemption.InvitationService.Settle | crates/nodescale-invitation/src/lib.rs:398-516 | a dispatch is recorded as not applied exactly for definite outcomes, as confirmed exactly for an acceptable credential the store took, and as ambiguous for every other one; each error is answered exactly for its outcomes, or for a store that cannot record; an acceptable credential the store refused is handed over to be revoked first |
| Redemption.InvitationService.Begin | crates/nodescale-invitation/src/lib.rs:344-381 | which refusal of the store is answered, and how far the dispatch got, for every answer before the provider is asked |
| Redemption.InvitationService.RedeemAtHeadscale | crates/nodescale-invitation/src/lib.rs:339-517 | a credential is delivered if and only if the creation is confirmed with the reserved expiry still ahead and the store takes it; whenever the dispatch is recorded as definitely not applied, which is exactly when the provider is blamed, the server gained no key; a credential the store refused is revoked |
| Redemption.InvitationService.RedeemAtFake | crates/nodescale-invitation/src/lib.rs:339-517 | the same through the fake provider, delivered exactly when nothing disturbs it and the store takes it in time |
| Redemption.CleanUpAtHeadscale | crates/nodescale-invitation/src/lib.rs:571-650 | a credential gets a settlement unless the store refuses it; success is reported only of a recorded one that is done, and with truthful lists nobody can join then; a changed server is settled as blocked only after a list that repeats the credential, and such a list always blocks it; without a credential nothing is sent |
| Redemption.RepeatedListBlocks | crates/nodescale-provider-headscale/src/lib.rs:1562-1588 | a concrete revocation that worked, with a true list that names the key twice, settled as blocked |
| RedemptionWorker.HandoffOfEveryRun | crates/nodescale-redemption-ingress/src/lib.rs:968-1044 | over every interleaving of the worker with all requesters, drops, failures to serialize and aborts included, acceptance is sent at most once, at most one body leaves, and no credential is both accepted or delivered and revoked |
| RedemptionWorker.BodyLeavesIffAccepted | crates/nodescale-redemption-ingress/src/lib.rs:501-516 | once a requester has come to its end, a body with the key has left if and only if its acceptance reached the waiting worker |
| RedemptionWorker.AcceptedOnlyLeaves | crates/nodescale-redemption-ingress/src/lib.rs:501-516 | after its acceptance a body can only leave; no step of anyone, an abort included, revokes or keeps it |
| RedemptionWorker.PendingOfEveryRun | crates/nodescale-redemption-ingress/src/lib.rs:1014-1036 | the pending counter is 1 exactly while a hand-off is open and 0 otherwise |
| RedemptionWorker.SettledOfEveryRun | crates/nodescale-redemption-ingress/src/lib.rs:968-1044 | every command the worker is done with was replied to exactly once, and each credential issued for one was either accepted or submitted to revocation |
| RedemptionWorker.AtMostOneUnsettled | crates/nodescale-redemption-ingress/src/lib.rs:968-1044 | in every reachable world, aborted or not, at most one issued credential is neither accepted nor submitted to revocation |
| RedemptionWorker.DeliveryCompletes | crates/nodescale-redemption-ingress/src/lib.rs:968-1044 | after any run, the next command whose requester stays gets its credential delivered and leaves the worker ready with nothing pending |
| RedemptionWorker.ServedExactly | crates/nodescale-redemption-ingress/src/lib.rs:986-1042 | a command gets a credential exactly if taken in time, with metadata, and one was issued; a waiting requester is told not redeemable exactly for a refused invitation, and unavailable exactly if it came late, without metadata or to an unavailable service |
| RedemptionWorker.TurnedAway | crates/nodescale-redemption-ingress/src/lib.rs:501-516 | a requester whose worker is gone is told unavailable, or lets no body leave; one that drops its end or cannot serialize is gone |
| RedemptionWorker.AwaitEnds | crates/nodescale-redemption-ingress/src/lib.rs:1028-1036 | a worker that waits on a requester at its end is back at the top of its loop after closing the hand-off and revoking what was not accepted |
| RedemptionWorker.RedemptionHandoff.Serialize | crates/nodescale-redemption-ingress/src/lib.rs:501-516 | a body comes out if and only if the delivery was still there, serialized, and the one message of acceptance, which a tracked handle owes, was taken |
| Paging.List | crates/nodescale-runtime/src/observation_uds.rs:405-439 | the trimming loop ends with the page `Trim` says, or unavailable |
| Paging.TrimLongest | crates/nodescale-runtime/src/operator_uds.rs:599-627 | trimming drops no row that could have stayed |
| Paging.PageAt | crates/nodescale-runtime/src/operator_uds.rs:599-627 | a page continues where its cursor says, is never empty before the end, has a cursor exactly when rows are left or it is full, and that points right behind its last row |
| Paging.WalkSeesAll | crates/nodescale-runtime/src/observation_uds.rs:405-439 | a client following cursors sees every row exactly once and in order, and stops |
| Paging.Sweep | crates/nodescale-runtime/src/lib.rs:392-416 | the sweep reconciles exactly the trusted rows in front of the first page read, trust lookup or reconciliation that fails, each once and in order, and succeeds if and only if none fails |
| Paging.ReachedExactly | crates/nodescale-runtime/src/lib.rs:392-416 | the sweep ends at the first row that fails to be looked up or, if trusted, to be reconciled, or in front of the page that cannot be read |
| WireText.BoundedTextIdentity | crates/nodescale-runtime/src/observation_uds.rs:471-480 | a bounded text has no control character and equals the text if and only if that has none and fits 256 bytes |
| WireText.BoundedTextLongest | crates/nodescale-runtime/src/observation_uds.rs:471-480 | a bounded text is the longest front, in at most 256 bytes, of the text without its control characters |
| WireText.BuildBoundedText | crates/nodescale-runtime/src/operator_uds.rs:667-676 | the character loop builds exactly the bounded text |
| WireText.WireRoundTrip | crates/nodescale-runtime/src/observation_uds.rs:405-439 | a reader of RFC 8259 recovers the response from the text that is measured |
| WireText.SizeExactly | crates/nodescale-runtime/src/observation_uds.rs:431-433 | the number of bytes of that text in UTF-8, which decides the trimming, is the sum computed from its parts |
| ObservationApi.RowFits | crates/nodescale-runtime/src/observation_uds.rs:311-352 | the text `serde_json` writes for one row of any texts at all is at most 46000 bytes in UTF-8 |
| ObservationApi.OneRowFits | crates/nodescale-runtime/src/observation_uds.rs:405-439 | the text of a response with at most one row and any bounded cursor fits the 64 KiB frame |
| ObservationApi.ObservationPagesComplete | crates/nodescale-runtime/src/observation_uds.rs:202-268 | over fixed observations under valid IDs a client sees each exactly once, for every page size |
| ObservationApi.ObservationPageLongest | crates/nodescale-runtime/src/observation_uds.rs:405-439 | the text of the page answered fits 65536 bytes, and the text of any longer front of the rows read, under its cursor, does not |
| ObservationApi.RequestExactly | crates/nodescale-runtime/src/observation_uds.rs:211-228 | a list request in the expected version for a network is invalid exactly for a limit outside 1 to 100 or a cursor that could be no node ID |
| ApiText.ObservationPage | crates/nodescale-runtime/src/observation_uds.rs:311-439 | a page read back shows version, network, cursor, and in each row the node, its texts, times and flags under their keys |
| ApiText.ObservationLists | crates/nodescale-runtime/src/observation_uds.rs:322-343 | a row shows its first 32 addresses and its first 32 tags, each bounded, and no more |
| OperatorApi.OneRowFits | crates/nodescale-runtime/src/operator_uds.rs:460-513 | the text of a response with at most one device and its cursor fits the frame |
| OperatorApi.DevicePagesComplete | crates/nodescale-runtime/src/operator_uds.rs:355-391 | over fixed devices a client sees each exactly once, for every page size |
| OperatorApi.DevicePageLongest | crates/nodescale-runtime/src/operator_uds.rs:599-627 | the same of a page of devices |
| OperatorApi.RequestExactly | crates/nodescale-runtime/src/operator_uds.rs:361-376 | a list request in the expected version for a network is invalid exactly for a limit outside 1 to 32 or a cursor that is not the canonical text of a device ID |
| ApiText.DevicePage | crates/nodescale-runtime/src/operator_uds.rs:460-627 | a page read back shows version, network, cursor, and in each row the device, its generations, trust and bindings under their keys |
| OperatorApi.ReconcileDevices | crates/nodescale-runtime/src/lib.rs:381-416 | the runtime's sweep reconciles every device with durable trust up to the first failure, and none if the provider could not be observed |
| SecretScan.OverlapSuffices | proofs/n7/run.py:334-346 | a sentinel crosses a chunk boundary if and only if it is found with the carried overlap |
| SecretScan.ScanArtifact | proofs/n7/run.py:338-346 | for every split into chunks, an artifact is reported exactly when a sentinel is in the content read and that has at least one byte |
| SecretScan.VerdictExactly | proofs/n7/run.py:332-346 | an artifact holds a secret exactly when a byte of it was read and some stretch of what was read is one of the sentinels; otherwise a failed reading is told |
| SecretScan.FindSecretSentinels | proofs/n7/run.py:332-348 | each kind of finding is reported once, in order, exactly when some artifact has it |

## Left out

- Sockets, HTTP, TLS, SQLite itself, systemd credentials and process control; only the logical reads, writes and checks are modelled.
- FleetReconcilerRuns.ProgressOfEveryRun: asks that the calling operation made the current attempt, because otherwise it is false; `SettlesIffOwnerOfEveryRun` states both directions. Both ask for serialized runs, because a later generation can block an earlier one otherwise.
- AdmissionHorizon.WindowLawExactly: with a global bucket too small for burst + 2 admissions within one interval of the source's, `BelowHorizon` and `EveryLimitsFail` leave a range of spans open.
- AdmissionWindow.WindowBound: bounds runs below the horizon only, because beyond it the bound is false.
- HeadscaleProvider.Headscale.CreateJoinCredential: a 401 or 403 is taken as refused without effect, which only the server can guarantee; the other mutations of the provider are not modelled.
- HeadscaleProvider.Headscale.RevokeJoinCredential: whether a list is truthful is an assumption, because only the server can guarantee it.
- ObservationApi.ObservationPagesComplete: rows are fixed during the walk and stored under IDs that pass the provider-node-ID check, as the domain type demands.
- OperatorApi.DevicePagesComplete: a request cursor is accepted in canonical UUID form only; the parser's other spellings never occur in a cursor the server sent.
- OperatorApi.RequestExactly: for the same reason, other spellings of a device ID are refused here and accepted by the source.
- What reconciling one device does to its binding.
- Paging.Sweep: rows are fixed during the sweep.
- RedemptionWorker.HandoffOfEveryRun: the loop is a machine of steps and not a method, because requesters move between any two of them; a revocation that fails is still counted as submitted; commands refused by a full queue never reach the worker; Argon2, the dummy verifier and the writing of the response to its socket are left out.
- Redemption.InvitationService.RedeemAtHeadscale: the state store's N4 tables are reduced to the dispatch row and to answers that may fail.
- FakeProvider.MutationProvider.ExecuteMutation: authorization is one flag, the mutation trace is left out, and the kinds of ambiguity are one outcome.
- How `serde_json` turns a floating-point value into text; such a number is modelled as that text.
- The single-owner actor's channel: the owner takes one call at a time.
- UUIDs of projections, attempts, inspections and audit rows: rows are named by position. The general audit_events table is not part of this model.
- The global bucket's `retry_after` before initialization, the HTTP Retry-After header and the redemption request's wire form.
- The N4, N5 and N6 tables, the Tailscale adapter, Headscale's health reports and the enum-only lifecycle tables other than the projection status.
- Secrecy, redaction and zeroizing.
