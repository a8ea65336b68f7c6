/** The hand-off of issued credentials from the redemption worker to its requesters.
 *
 *  The worker sends a handle and waits; the requester may drop it at any point, fail
 *  to serialize the response, or serialize and then find the worker gone. The steps
 *  of the worker and of all requesters interleave freely, and the worker may abort
 *  between any two of them.
 */
module RedemptionWorker {
  import opened Options

  datatype Redeemed = Issue | UnknownInvitation | ServiceUnavailable | OtherFailure

  datatype Failure = NotRedeemable | Unavailable

  const LONGEST_WAIT := 5000

  /** How far the requester of one command has come. */
  datatype Requester =
    | Waiting
    | Refused(failure: Failure)
    | Handed
    | Holding
    | Serialized
    | Accepted
    | Delivered
    | Gone

  /** One command: its requester, whether a credential was issued for it, and how often
   *  it was replied to, accepted, delivered in a body, and revoked. */
  datatype Session = Session(
    requester: Requester, issued: bool, replies: nat, acceptances: nat, bodies: nat, revocations: nat)

  /** Where the worker is in its loop. */
  datatype Worker =
    | Top
    | Serving(index: nat)
    | Issued(index: nat)
    | Counted(index: nat)
    | Awaiting(index: nat)
    | Closing(index: nat, accepted: bool)
    | Revoking(index: nat)
    | Stopped

  /** The commands in queue order, how many of them the worker has taken, and the
   *  counter of open hand-offs. An aborted worker takes no further step. */
  datatype World = World(sessions: seq<Session>, taken: nat, worker: Worker, aborted: bool, pending: int)

  datatype Event =
    | Submit
    | Take
    | Serve(waited: nat, metadata: bool, redeemed: Redeemed)
    | Count
    | SendHandle
    | Observe
    | Uncount
    | Revoke
    | Shutdown
    | Abort
    | Drop(index: nat)
    | Receive(index: nat)
    | Serialize(index: nat, ok: bool)
    | Accept(index: nat)
    | Leave(index: nat)

  const Start := World([], 0, Top, false, 0)

  // ------------------------------------------------------------------- steps

  /** The failure a command is answered with, if no credential is issued for it. */
  function FailureOf(waited: nat, metadata: bool, redeemed: Redeemed): Option<Failure> {
    if waited > LONGEST_WAIT || !metadata then Some(Unavailable)
    else
      match redeemed
      case Issue => None
      case UnknownInvitation => Some(NotRedeemable)
      case ServiceUnavailable => Some(Unavailable)
      case OtherFailure => Some(NotRedeemable)
  }

  function With(w: World, i: nat, s: Session): World
    requires i < |w.sessions|
  {
    w.(sessions := w.sessions[i := s])
  }

  /** The worker's receiver of the acceptance still exists. */
  predicate Listening(w: World, i: nat) { w.worker == Awaiting(i) && !w.aborted }

  /** The worker after it served command `i`: a failure is replied at once, and reaches
   *  a requester that still waits. */
  function Answered(w: World, i: nat, failure: Option<Failure>): World
    requires i < |w.sessions|
  {
    var s := w.sessions[i];
    match failure
    case None => With(w, i, s.(issued := true)).(worker := Issued(i))
    case Some(f) =>
      With(w, i, s.(replies := s.replies + 1, requester := if s.requester.Waiting? then Refused(f) else s.requester))
        .(worker := Top)
  }

  /** A step of the worker at its command. */
  function WorkerStep(w: World, e: Event): World {
    match w.worker
    case Top =>
      if e.Take? && w.taken < |w.sessions| then w.(worker := Serving(w.taken), taken := w.taken + 1)
      else if e.Shutdown? then w.(worker := Stopped)
      else w
    case Serving(i) =>
      if !e.Serve? || i >= |w.sessions| then w
      else
        Answered(w, i, FailureOf(e.waited, e.metadata, e.redeemed))
    case Issued(i) => if e.Count? then w.(worker := Counted(i), pending := w.pending + 1) else w
    case Counted(i) =>
      if !e.SendHandle? || i >= |w.sessions| then w
      else
        var s := w.sessions[i];
        if s.requester.Waiting?
        then With(w, i, s.(replies := s.replies + 1, requester := Handed)).(worker := Awaiting(i))
        else With(w, i, s.(replies := s.replies + 1)).(worker := Closing(i, false))
    case Awaiting(i) =>
      if !e.Observe? || i >= |w.sessions| then w
      else if w.sessions[i].acceptances > 0 then w.(worker := Closing(i, true))
      else if w.sessions[i].requester.Gone? then w.(worker := Closing(i, false))
      else w
    case Closing(i, accepted) =>
      if e.Uncount? then w.(pending := w.pending - 1, worker := if accepted then Top else Revoking(i)) else w
    case Revoking(i) =>
      if !e.Revoke? || i >= |w.sessions| then w
      else With(w, i, w.sessions[i].(revocations := w.sessions[i].revocations + 1)).(worker := Top)
    case Stopped => w
  }

  /** A step of the requester of command `i`. Dropping its receiver or its handle also
   *  drops the acceptance sender inside. */
  function RequesterStep(w: World, e: Event, i: nat): Session
    requires i < |w.sessions|
  {
    var s := w.sessions[i];
    match s.requester
    case Waiting =>
      if e == Drop(i) then s.(requester := Gone)
      else if e == Receive(i) && (w.aborted || w.worker.Stopped?) then s.(requester := Refused(Unavailable))
      else s
    case Handed =>
      if e == Drop(i) then s.(requester := Gone)
      else if e == Receive(i) then s.(requester := Holding)
      else s
    case Holding =>
      if e == Drop(i) || e == Serialize(i, false) then s.(requester := Gone)
      else if e == Serialize(i, true) then s.(requester := Serialized)
      else s
    case Serialized =>
      if e != Accept(i) then s
      else if Listening(w, i) then s.(requester := Accepted, acceptances := s.acceptances + 1)
      else s.(requester := Gone)
    case Accepted => if e == Leave(i) then s.(requester := Delivered, bodies := s.bodies + 1) else s
    case _ => s
  }

  function Next(w: World, e: Event): World {
    match e
    case Submit => w.(sessions := w.sessions + [Session(Waiting, false, 0, 0, 0, 0)])
    case Abort => w.(aborted := true)
    case Drop(i) => if i < |w.sessions| then With(w, i, RequesterStep(w, e, i)) else w
    case Receive(i) => if i < |w.sessions| then With(w, i, RequesterStep(w, e, i)) else w
    case Serialize(i, _) => if i < |w.sessions| then With(w, i, RequesterStep(w, e, i)) else w
    case Accept(i) => if i < |w.sessions| then With(w, i, RequesterStep(w, e, i)) else w
    case Leave(i) => if i < |w.sessions| then With(w, i, RequesterStep(w, e, i)) else w
    case _ => if w.aborted then w else WorkerStep(w, e)
  }

  function Run(w: World, es: seq<Event>): World
    decreases |es|
  {
    if es == [] then w else Run(Next(w, es[0]), es[1..])
  }

  // --------------------------------------------------------------- invariant

  /** The command the worker is at. */
  predicate At(w: Worker, i: nat) { !w.Top? && !w.Stopped? && w.index == i }

  /** A hand-off is open between the two moves of the counter. */
  predicate Open(w: Worker) { w.Counted? || w.Awaiting? || w.Closing? }

  predicate HasHandle(r: Requester) { r.Handed? || r.Holding? || r.Serialized? }

  predicate Took(r: Requester) { r.Accepted? || r.Delivered? }

  /** What holds of a command at the point the worker has reached with it. */
  predicate WorkerAt(w: Worker, i: nat, s: Session)
    requires At(w, i)
  {
    match w
    case Serving(_) => !s.issued && s.replies == 0 && (s.requester.Waiting? || s.requester.Gone? || s.requester.Refused?)
    case Issued(_) => s.issued && s.replies == 0 && (s.requester.Waiting? || s.requester.Gone? || s.requester.Refused?)
    case Counted(_) => s.issued && s.replies == 0 && (s.requester.Waiting? || s.requester.Gone? || s.requester.Refused?)
    case Awaiting(_) => s.issued && s.replies == 1 && (HasHandle(s.requester) || Took(s.requester) || s.requester.Gone?)
    case Closing(_, accepted) =>
      s.issued && s.replies == 1 && (if accepted then Took(s.requester) else s.requester.Gone? || s.requester.Refused?)
    case Revoking(_) => s.issued && s.replies == 1 && (s.requester.Gone? || s.requester.Refused?)
    case _ => true
  }

  /** One command, wherever the worker is. */
  predicate SessionOk(w: World, i: nat)
    requires i < |w.sessions|
  {
    var s := w.sessions[i];
    && s.acceptances == (if Took(s.requester) then 1 else 0)
    && s.bodies == (if s.requester.Delivered? then 1 else 0)
    && s.revocations <= 1
    && (s.revocations == 1 ==> s.issued && (s.requester.Gone? || s.requester.Refused?))
    && (HasHandle(s.requester) ==> w.worker == Awaiting(i))
    && (Took(s.requester) ==> s.issued)
    && (if At(w.worker, i) then i < w.taken && s.revocations == 0 && WorkerAt(w.worker, i, s)
        else if i >= w.taken then !s.issued && s.replies == 0
        else s.replies == 1 && (s.issued ==> s.acceptances + s.revocations == 1)
             && (!s.issued ==> s.requester.Refused? || s.requester.Gone?))
    && (s.requester.Waiting? && i < w.taken ==> At(w.worker, i))
    && (s.requester.Refused? && !w.aborted
        ==> !s.issued && !At(w.worker, i) && (i < w.taken || w.worker.Stopped?))
  }

  predicate Safe(w: World) {
    && w.taken <= |w.sessions|
    && (forall i :: 0 <= i < |w.sessions| ==> SessionOk(w, i))
    && (!w.worker.Top? && !w.worker.Stopped? ==> w.worker.index < w.taken)
    && w.pending == (if Open(w.worker) then 1 else 0)
  }

  lemma WorkerKeeps(w: World, e: Event)
    requires Safe(w) && !w.aborted
    ensures Safe(WorkerStep(w, e))
  {
    var n := WorkerStep(w, e);
    WorkerCounts(w, e);
    forall i | 0 <= i < |n.sessions| ensures SessionOk(n, i) {
      assert SessionOk(w, i);
      WorkerKeepsSession(w, e, i);
    }
    hide SessionOk, WorkerStep;
  }

  lemma WorkerCounts(w: World, e: Event)
    requires Safe(w)
    ensures var n := WorkerStep(w, e);
            && n.taken <= |n.sessions| == |w.sessions|
            && (!n.worker.Top? && !n.worker.Stopped? ==> n.worker.index < n.taken)
            && n.pending == (if Open(n.worker) then 1 else 0)
  {
    hide SessionOk;
  }

  lemma WorkerKeepsSession(w: World, e: Event, i: nat)
    requires i < |w.sessions| && w.taken <= |w.sessions| && !w.aborted && SessionOk(w, i)
    requires !w.worker.Top? && !w.worker.Stopped? ==> w.worker.index < w.taken
    ensures |WorkerStep(w, e).sessions| == |w.sessions| && SessionOk(WorkerStep(w, e), i)
  {
  }

  lemma RequesterKeeps(w: World, e: Event, k: nat)
    requires Safe(w) && k < |w.sessions|
    ensures Safe(With(w, k, RequesterStep(w, e, k)))
  {
    var n := With(w, k, RequesterStep(w, e, k));
    OwnSessionKeeps(w, e, k);
    hide RequesterStep;
    forall i | 0 <= i < |n.sessions| ensures SessionOk(n, i) {
      assert SessionOk(w, i);
      if i != k { OtherSessionKeeps(w, k, n.sessions[k], i); }
    }
    hide SessionOk;
  }

  lemma OwnSessionKeeps(w: World, e: Event, k: nat)
    requires k < |w.sessions| && SessionOk(w, k)
    ensures SessionOk(With(w, k, RequesterStep(w, e, k)), k)
  {
  }

  /** A command's condition speaks of no other command. */
  lemma OtherSessionKeeps(w: World, k: nat, s: Session, i: nat)
    requires k < |w.sessions| && i < |w.sessions| && i != k && SessionOk(w, i)
    ensures SessionOk(With(w, k, s), i)
  {
  }

  lemma StepSafe(w: World, e: Event)
    requires Safe(w)
    ensures Safe(Next(w, e))
  {
    match e
    case Submit =>
      var n := Next(w, e);
      forall i | 0 <= i < |n.sessions| ensures SessionOk(n, i) {
        if i < |w.sessions| { assert SessionOk(w, i); }
      }
    case Abort =>
      forall i | 0 <= i < |w.sessions| ensures SessionOk(Next(w, e), i) { assert SessionOk(w, i); }
    case Drop(i) => if i < |w.sessions| { RequesterKeeps(w, e, i); }
    case Receive(i) => if i < |w.sessions| { RequesterKeeps(w, e, i); }
    case Serialize(i, _) => if i < |w.sessions| { RequesterKeeps(w, e, i); }
    case Accept(i) => if i < |w.sessions| { RequesterKeeps(w, e, i); }
    case Leave(i) => if i < |w.sessions| { RequesterKeeps(w, e, i); }
    case _ => if !w.aborted { WorkerKeeps(w, e); }
  }

  lemma {:induction false} RunSafe(w: World, es: seq<Event>)
    requires Safe(w)
    ensures Safe(Run(w, es))
    decreases |es|
  {
    if es != [] {
      StepSafe(w, es[0]);
      RunSafe(Next(w, es[0]), es[1..]);
    }
  }

  /** How a command is served: it gets a credential exactly if it was taken in time, its
   *  source has metadata, and one was issued. Otherwise a requester that still waits is
   *  told it is not redeemable, if the invitation was refused, and unavailable if it came
   *  too late, had no metadata or the service was unavailable. */
  lemma ServedExactly(w: World, i: nat, waited: nat, metadata: bool, redeemed: Redeemed)
    requires Safe(w) && !w.aborted && w.worker == Serving(i)
    ensures var n := Next(w, Serve(waited, metadata, redeemed));
            && i < |n.sessions| == |w.sessions|
            && (forall j :: 0 <= j < |w.sessions| && j != i ==> n.sessions[j] == w.sessions[j])
            && (n.sessions[i].issued <==> waited <= 5000 && metadata && redeemed.Issue?)
            && n.worker == (if n.sessions[i].issued then Issued(i) else Top)
            && n.sessions[i].replies == (if n.sessions[i].issued then 0 else 1)
            && (w.sessions[i].requester.Waiting? ==>
                  && (n.sessions[i].requester == Refused(NotRedeemable) <==>
                        waited <= 5000 && metadata && (redeemed.UnknownInvitation? || redeemed.OtherFailure?))
                  && (n.sessions[i].requester == Refused(Unavailable) <==>
                        waited > 5000 || !metadata || redeemed.ServiceUnavailable?))
            && (!w.sessions[i].requester.Waiting? ==> n.sessions[i].requester == w.sessions[i].requester)
  {
    assert SessionOk(w, i);
    hide SessionOk;
  }

  /** What becomes of a requester that gives up, or finds its worker gone: one that still
   *  waits is told unavailable, one that serialized its response lets no body leave, and
   *  one that drops its end, or cannot serialize, is gone. */
  lemma TurnedAway(w: World, i: nat)
    requires i < |w.sessions|
    ensures var r := w.sessions[i].requester;
            && (r.Waiting? && (w.aborted || w.worker.Stopped?) ==>
                  Next(w, Receive(i)).sessions[i] == w.sessions[i].(requester := Refused(Unavailable)))
            && (r.Serialized? && (w.aborted || w.worker != Awaiting(i)) ==>
                  Next(w, Accept(i)).sessions[i] == w.sessions[i].(requester := Gone))
            && (r.Waiting? || r.Handed? || r.Holding? ==>
                  Next(w, Drop(i)).sessions[i] == w.sessions[i].(requester := Gone))
            && (r.Holding? ==> Next(w, Serialize(i, false)).sessions[i] == w.sessions[i].(requester := Gone))
  {
  }

  // ----------------------------------------------------------- over every run

  /** Over every interleaving, with the worker aborting anywhere: acceptance reaches the
   *  worker at most once and at most one body leaves; a body leaves only after its
   *  acceptance, and a requester that accepted has nothing left to do but to let it
   *  leave; no credential is both accepted, let alone delivered, and revoked. */
  lemma HandoffOfEveryRun(es: seq<Event>, i: nat)
    requires i < |Run(Start, es).sessions|
    ensures var s := Run(Start, es).sessions[i];
            && s.acceptances <= 1 && s.bodies <= 1 && s.revocations <= 1
            && (if s.requester.Accepted? then s.acceptances == 1 && s.bodies == 0 else s.bodies == s.acceptances)
            && (s.revocations > 0 ==> s.acceptances == 0 && s.bodies == 0)
            && (s.acceptances + s.revocations > 0 ==> s.issued)
  {
    RunSafe(Start, es);
    assert SessionOk(Run(Start, es), i);
  }

  /** A body with the key leaves if and only if acceptance reached the worker, once the
   *  requester has come to its end. */
  lemma BodyLeavesIffAccepted(es: seq<Event>, i: nat)
    requires i < |Run(Start, es).sessions| && !Run(Start, es).sessions[i].requester.Accepted?
    ensures var s := Run(Start, es).sessions[i];
            s.bodies == 1 <==> s.acceptances == 1
  {
    HandoffOfEveryRun(es, i);
  }

  /** An accepted credential can only leave: no step of anyone, not even an abort,
   *  takes it back, and its own next step delivers it. */
  lemma AcceptedOnlyLeaves(w: World, e: Event, i: nat)
    requires Safe(w) && i < |w.sessions| && w.sessions[i].requester.Accepted?
    ensures var n := Next(w, e).sessions[i];
            if e == Leave(i) then n.requester.Delivered? && n.bodies == 1
            else n.requester.Accepted? && n.revocations == 0
  {
    assert SessionOk(w, i);
    hide Answered, Listening;
  }

  /** The pending counter is 1 exactly while a hand-off is open, and 0 otherwise; so it
   *  is 0 whenever the worker is at the top of its loop or has stopped. */
  lemma PendingOfEveryRun(es: seq<Event>)
    ensures var w := Run(Start, es);
            && w.pending == (if Open(w.worker) then 1 else 0)
            && (w.worker.Top? || w.worker.Stopped? ==> w.pending == 0)
  {
    RunSafe(Start, es);
  }

  /** Every command the worker is done with got exactly one reply, and each credential
   *  issued for one was either accepted or submitted to revocation, never both. */
  lemma SettledOfEveryRun(es: seq<Event>, i: nat)
    requires var w := Run(Start, es); i < w.taken && i < |w.sessions| && !At(w.worker, i)
    ensures var s := Run(Start, es).sessions[i];
            && s.replies == 1
            && (s.issued ==> (s.acceptances == 1 && s.revocations == 0) || (s.acceptances == 0 && s.revocations == 1))
            && (!s.issued ==> s.acceptances == 0 && s.revocations == 0 && s.bodies == 0)
  {
    RunSafe(Start, es);
    assert SessionOk(Run(Start, es), i);
  }

  /** The worker is never stuck on a requester that has come to its end: two or three
   *  of its own steps close the hand-off, revoke what was not accepted, and bring it
   *  back to the top of its loop with nothing pending. */
  lemma AwaitEnds(w: World, i: nat)
    requires Safe(w) && Listening(w, i) && i < |w.sessions|
    requires Took(w.sessions[i].requester) || w.sessions[i].requester.Gone?
    ensures var closed := Next(Next(w, Observe), Uncount);
            var end := if Took(w.sessions[i].requester) then closed else Next(closed, Revoke);
            && end.worker == Top && end.pending == 0
            && end.sessions[i].acceptances + end.sessions[i].revocations == 1
            && end.sessions[i].acceptances == w.sessions[i].acceptances
  {
    assert SessionOk(w, i);
  }

  /** However the run goes, wherever the worker aborts: at most one credential that was
   *  issued is neither accepted nor submitted to revocation. */
  lemma AtMostOneUnsettled(es: seq<Event>, i: nat, j: nat)
    requires i < j < |Run(Start, es).sessions|
    ensures var s, t := Run(Start, es).sessions[i], Run(Start, es).sessions[j];
            s.issued && t.issued ==> s.acceptances + s.revocations == 1 || t.acceptances + t.revocations == 1
  {
    RunSafe(Start, es);
    assert SessionOk(Run(Start, es), i) && SessionOk(Run(Start, es), j);
    hide WorkerAt;
  }

  /** What the worker and requester `i` do when nothing goes wrong. */
  function Delivery(i: nat, waited: nat): seq<Event> {
    [Take, Serve(waited, true, Issue), Count, SendHandle, Receive(i), Serialize(i, true), Accept(i), Leave(i), Observe,
     Uncount]
  }

  /** The world after `k` events of a delivery. */
  function Stage(sessions: seq<Session>, i: nat, k: nat): World
    requires i < |sessions| && k <= 10
  {
    var requester := if k < 4 then Waiting else if k == 4 then Handed else if k == 5 then Holding
                     else if k == 6 then Serialized else if k == 7 then Accepted else Delivered;
    var s := Session(requester, k >= 2, if k >= 4 then 1 else 0, if k >= 7 then 1 else 0, if k >= 8 then 1 else 0, 0);
    var worker := if k == 1 then Serving(i) else if k == 2 then Issued(i) else if k == 3 then Counted(i)
                  else if 4 <= k < 9 then Awaiting(i) else if k == 9 then Closing(i, true) else Top;
    World(sessions[i := s], if k == 0 then i else i + 1, worker, false, if 3 <= k < 10 then 1 else 0)
  }

  lemma StageStep(sessions: seq<Session>, i: nat, waited: nat, k: nat)
    requires i < |sessions| && k < 10 && waited <= LONGEST_WAIT
    ensures Next(Stage(sessions, i, k), Delivery(i, waited)[k]) == Stage(sessions, i, k + 1)
  {
    var w, n := Stage(sessions, i, k), Stage(sessions, i, k + 1);
    assert w.sessions[i := n.sessions[i]] == n.sessions;
  }

  lemma {:induction false} DeliveryRun(sessions: seq<Session>, i: nat, waited: nat, k: nat)
    requires i < |sessions| && k <= 10 && waited <= LONGEST_WAIT
    ensures Run(Stage(sessions, i, k), Delivery(i, waited)[k..]) == Stage(sessions, i, 10)
    decreases 10 - k
  {
    if k < 10 {
      StageStep(sessions, i, waited, k);
      DeliveryRun(sessions, i, waited, k + 1);
      hide Next, Stage;
      assert Delivery(i, waited)[k..][1..] == Delivery(i, waited)[k + 1..];
    }
  }

  /** Whatever came before, the next command whose requester stays gets its credential
   *  delivered, and the worker is ready again. */
  lemma DeliveryCompletes(w: World, i: nat, waited: nat)
    requires Safe(w) && w.worker.Top? && !w.aborted && i == w.taken < |w.sessions|
    requires w.sessions[i].requester.Waiting? && waited <= LONGEST_WAIT
    ensures Run(w, Delivery(i, waited)) ==
            World(w.sessions[i := Session(Delivered, true, 1, 1, 1, 0)], i + 1, Top, false, 0)
  {
    assert SessionOk(w, i);
    DeliveryRun(w.sessions, i, waited, 0);
    hide Run, Safe, SessionOk, Delivery;
    assert w.sessions[i := w.sessions[i]] == w.sessions;
    assert w == Stage(w.sessions, i, 0);
    assert Delivery(i, waited)[0..] == Delivery(i, waited);
  }

  // --------------------------------------------------- the handle's own method

  /** The one-shot channel by which the worker learns of the acceptance. */
  class Channel {
    var listening: bool
    var messages: nat

    constructor ()
      ensures listening && messages == 0
    {
      listening, messages := true, 0;
    }

    method Send() returns (ok: bool)
      modifies this
      ensures ok == old(listening) && listening == old(listening)
      ensures messages == old(messages) + (if ok then 1 else 0)
    {
      ok := listening;
      if ok { messages := messages + 1; }
    }
  }

  /** `RedemptionHandoff`: it owns the delivery and the acceptance sender until they
   *  are taken. */
  class RedemptionHandoff {
    var delivery: Option<string>
    var accepted: Option<Channel>

    /** `untracked` without a channel, `tracked` with one. */
    constructor (delivery: string, accepted: Option<Channel>)
      ensures this.delivery == Some(delivery) && this.accepted == accepted
    {
      this.delivery, this.accepted := Some(delivery), accepted;
    }

    /** `serialize`, with a body that may fail to serialize. A body comes out if and only
     *  if the delivery was still there, was serialized, and the one message of
     *  acceptance, which a tracked handle owes, went through. */
    method Serialize(written: bool) returns (body: Option<string>)
      modifies this, if accepted.Some? then {accepted.value} else {}
      ensures delivery == None
      ensures body.Some? <==>
                old(delivery).Some? && written && (old(accepted).Some? ==> old(accepted.value.listening))
      ensures body.Some? ==> body == old(delivery) && accepted == None
      ensures old(accepted).Some? ==>
                old(accepted).value.messages == old(accepted.value.messages) + (if body.Some? then 1 else 0)
    {
      var taken := delivery;
      delivery := None;
      if taken.None? || !written { return None; }
      if accepted.Some? {
        var channel := accepted.value;
        accepted := None;
        var sent := channel.Send();
        if !sent { return None; }
      }
      return taken;
    }
  }
}
