/** Redeeming an invitation through a provider, and cleaning up after it. */
module Redemption {
  import opened Options
  import opened Mutations
  import FakeProvider
  import HeadscaleProvider

  /** The dispatch row of one join session. */
  datatype Dispatch =
    | NotReserved | Reserved | DispatchStarted | DispatchConfirmed | FailedNoApply | DispatchAmbiguous

  datatype ServiceError =
    | NotFound | ServiceConflict | StoreUnavailable | AmbiguousRedemption | ProviderUnavailable | ProviderRejected
    | ProviderAuthentication | ProviderBlocked

  datatype Result<T> = Ok(value: T) | Err(error: ServiceError)

  datatype Issued = Issued(reference: string, expiresAt: int)

  /** What the state store and the issuer decide during one redemption. */
  datatype StoreAnswers = StoreAnswers(
    candidate: Option<ServiceError>,
    verified: bool,
    prepared: Option<ServiceError>,
    begun: Option<ServiceError>,
    contextMatches: bool,
    recorded: bool,
    confirmed: bool,
    invalidation: bool)

  datatype Reservation = Reservation(principal: string, tags: set<string>, expiresAt: int)

  function RequestOf(r: Reservation): JoinRequest {
    JoinRequest(r.principal, false, 1, Some(r.expiresAt), r.tags)
  }

  /** An issued credential that `redeem` accepts as its own. */
  predicate Acceptable(o: Outcome, r: Reservation, now: int) {
    && o.Confirmed? && o.evidence.JoinCredentialIssued?
    && o.evidence.maxUses == 1 && now < o.evidence.expiresAt <= r.expiresAt
  }

  /** One use, not over yet, and no longer than was reserved. */
  lemma AcceptableExactly(o: Outcome, r: Reservation, now: int)
    ensures Acceptable(o, r, now) <==>
              exists reference, at :: now < at <= r.expiresAt && o == Confirmed(JoinCredentialIssued(reference, at, 1))
  {
    if Acceptable(o, r, now) { assert o == Confirmed(JoinCredentialIssued(o.evidence.reference, o.evidence.expiresAt, 1)); }
  }

  /** The errors that blame the provider for a credential that was not made. */
  predicate ProviderFailure<T>(r: Result<T>) {
    r == Err(ProviderUnavailable) || r == Err(ProviderRejected) || r == Err(ProviderAuthentication) || r == Err(ProviderBlocked)
  }

  /** The store lets a redemption get as far as its provider. */
  predicate Begins(s: StoreAnswers) {
    s.candidate.None? && s.verified && s.prepared.None? && s.begun.None? && s.contextMatches
  }

  class InvitationService {
    var dispatch: Dispatch

    constructor ()
      ensures dispatch == NotReserved
    {
      dispatch := NotReserved;
    }

    /** `record_dispatch_failure`: the store admits it for a started dispatch only,
     *  and may be unavailable. */
    method RecordFailure(to: Dispatch, recorded: bool) returns (r: Result<()>)
      modifies this
      ensures r == if !recorded then Err(StoreUnavailable)
                   else if old(dispatch) != DispatchStarted then Err(ServiceConflict)
                   else Ok(())
      ensures dispatch == if r.Ok? then to else old(dispatch)
    {
      if !recorded { return Err(StoreUnavailable); }
      if dispatch != DispatchStarted { return Err(ServiceConflict); }
      dispatch := to;
      return Ok(());
    }

    /** Everything before the provider is asked. */
    method Begin(s: StoreAnswers) returns (r: Result<()>)
      requires dispatch == NotReserved
      modifies this
      ensures r.Ok? <==> s.candidate.None? && s.verified && s.prepared.None? && s.begun.None? && s.contextMatches
      ensures r.Ok? ==> dispatch == DispatchStarted
      ensures s.candidate.Some? ==> r == Err(s.candidate.value)
      ensures s.candidate.None? && !s.verified ==> r == Err(ServiceConflict)
      ensures s.candidate.None? && s.verified && s.prepared.Some? ==> r == Err(s.prepared.value)
      ensures dispatch == NotReserved <==> s.candidate.Some? || !s.verified || s.prepared.Some?
      ensures dispatch == Reserved <==> s.candidate.None? && s.verified && s.prepared.None? && s.begun.Some?
      ensures dispatch == Reserved ==> r == Err(s.begun.value)
      ensures dispatch == DispatchAmbiguous ==> !s.contextMatches && s.recorded && r == Err(AmbiguousRedemption)
      ensures dispatch == DispatchStarted && r.Err? ==> !s.contextMatches && !s.recorded && r == Err(StoreUnavailable)
      ensures dispatch != FailedNoApply && dispatch != DispatchConfirmed
    {
      match s.candidate { case Some(e) => return Err(e); case None => }
      if !s.verified { return Err(ServiceConflict); }
      match s.prepared { case Some(e) => return Err(e); case None => }
      dispatch := Reserved;
      match s.begun { case Some(e) => return Err(e); case None => }
      dispatch := DispatchStarted;
      if !s.contextMatches {
        var recorded := RecordFailure(DispatchAmbiguous, s.recorded);
        match recorded { case Err(e) => return Err(e); case Ok(_) => return Err(AmbiguousRedemption); }
      }
      return Ok(());
    }

    method Refuse(to: Dispatch, error: ServiceError, recorded: bool) returns (r: Result<Issued>)
      requires dispatch == DispatchStarted
      modifies this
      ensures dispatch == if recorded then to else DispatchStarted
      ensures r == Err(if recorded then error else StoreUnavailable)
    {
      var done := RecordFailure(to, recorded);
      match done
      case Err(e) => r := Err(e);
      case Ok(_) => r := Err(error);
    }

    /** What the provider's outcome is recorded as. `contain` names a credential whose
     *  confirmation the store refused: it is revoked first and recorded after that. */
    method Settle(o: Outcome, v: Reservation, now: int, s: StoreAnswers)
      returns (r: Result<Issued>, contain: Option<string>)
      requires dispatch == DispatchStarted
      modifies this
      ensures dispatch == FailedNoApply <==> DefiniteNoApply(o) && s.recorded
      ensures dispatch == DispatchConfirmed <==> Acceptable(o, v, now) && s.confirmed
      ensures dispatch == DispatchConfirmed <==> r.Ok?
      ensures r.Ok? ==> r.value == Issued(o.evidence.reference, o.evidence.expiresAt)
      ensures dispatch == DispatchAmbiguous <==> !DefiniteNoApply(o) && !Acceptable(o, v, now) && s.recorded
      ensures dispatch in {FailedNoApply, DispatchConfirmed, DispatchAmbiguous}
              || (dispatch == DispatchStarted && r.Err? && (contain.None? ==> !s.recorded))
      ensures contain.Some? <==> Acceptable(o, v, now) && !s.confirmed
      ensures contain.Some? ==> contain.value == o.evidence.reference && dispatch == DispatchStarted
      ensures r == Err(ProviderUnavailable) <==> o.Unavailable? && s.recorded
      ensures r == Err(ProviderRejected) <==> (o.Rejected? || o.Conflict? || o.Unsupported?) && s.recorded
      ensures r == Err(ProviderAuthentication) <==> o.AuthenticationFailed? && s.recorded
      ensures r == Err(ProviderBlocked) <==> o.CompatibilityBlocked? && s.recorded
      ensures r == Err(StoreUnavailable) <==> !Acceptable(o, v, now) && !s.recorded
      ensures r == Err(AmbiguousRedemption) <==> contain.Some? || dispatch == DispatchAmbiguous
    {
      contain := None;
      if Acceptable(o, v, now) {
        if s.confirmed {
          dispatch := DispatchConfirmed;
          return Ok(Issued(o.evidence.reference, o.evidence.expiresAt)), None;
        }
        return Err(AmbiguousRedemption), Some(o.evidence.reference);
      }
      match o {
        case Unavailable => r := Refuse(FailedNoApply, ProviderUnavailable, s.recorded);
        case Rejected => r := Refuse(FailedNoApply, ProviderRejected, s.recorded);
        case Conflict => r := Refuse(FailedNoApply, ProviderRejected, s.recorded);
        case Unsupported => r := Refuse(FailedNoApply, ProviderRejected, s.recorded);
        case AuthenticationFailed => r := Refuse(FailedNoApply, ProviderAuthentication, s.recorded);
        case CompatibilityBlocked => r := Refuse(FailedNoApply, ProviderBlocked, s.recorded);
        case _ => r := Refuse(DispatchAmbiguous, AmbiguousRedemption, s.recorded);
      }
    }

    /** `redeem` through Headscale. A dispatch recorded as definitely not applied means
     *  that the server gained no key; a delivered credential is on the server, if the
     *  list read back is true, single-use, for the reserved principal and tags. */
    method RedeemAtHeadscale(
      v: Reservation, now: int, s: StoreAnswers, provider: HeadscaleProvider.Headscale,
      a: HeadscaleProvider.CreateAnswers, at: int, revoke: HeadscaleProvider.RevokeAnswers)
      returns (r: Result<Issued>)
      requires dispatch == NotReserved
      modifies this, provider
      ensures dispatch == FailedNoApply ==> provider.keys == old(provider.keys)
      ensures Begins(s) ==> (dispatch == FailedNoApply <==> ProviderFailure(r))
      ensures !Begins(s) ==> provider.keys == old(provider.keys)
      ensures Begins(s) && provider.keys != old(provider.keys) ==>
                r.Ok? || r == Err(AmbiguousRedemption) || (r == Err(StoreUnavailable) && !s.recorded)
      ensures provider.keys != old(provider.keys) && s.recorded ==> dispatch in {DispatchConfirmed, DispatchAmbiguous}
      ensures dispatch == DispatchConfirmed <==> r.Ok?
      ensures r.Ok? <==>
                Begins(s) && HeadscaleProvider.Issues(RequestOf(v), at, a) && now < v.expiresAt && s.confirmed
      ensures r.Ok? ==> r.value == Issued(a.post.body.value.id, v.expiresAt)
      ensures Begins(s) && HeadscaleProvider.Issues(RequestOf(v), at, a) && now < v.expiresAt && !s.confirmed
              && s.invalidation && HeadscaleProvider.Submits(a.post.body.value.id, revoke)
              && !revoke.post.Unauthorized? && revoke.post.applied ==>
                HeadscaleProvider.Unusable(provider.keys, a.post.body.value.id, revoke.expiredAt)
      ensures r.Ok? && HeadscaleProvider.Truthful(a.list.value, provider.keys) ==>
                && r.value.reference in provider.keys
                && HeadscaleProvider.AsRequested(provider.keys[r.value.reference], RequestOf(v), r.value.expiresAt)
    {
      var begun := Begin(s);
      match begun { case Err(e) => return Err(e); case Ok(_) => }
      var outcome, sent := provider.CreateJoinCredential(RequestOf(v), at, a);
      var contain: Option<string>;
      r, contain := Settle(outcome, v, now, s);
      if contain.Some? {
        if s.invalidation { var revoked := provider.RevokeJoinCredential(contain.value, revoke); }
        var ignored := RecordFailure(DispatchAmbiguous, s.recorded);
      }
    }

    /** `redeem` through the fake provider, with the same guarantees. */
    method RedeemAtFake(
      v: Reservation, now: int, s: StoreAnswers, provider: FakeProvider.MutationProvider, permitted: bool)
      returns (r: Result<Issued>)
      requires dispatch == NotReserved && provider.provider.Valid()
      modifies this, provider`scripts, provider.provider
      ensures provider.provider.Valid()
      ensures dispatch == FailedNoApply ==> provider.provider.State() == old(provider.provider.State())
      ensures Begins(s) ==> (dispatch == FailedNoApply <==> ProviderFailure(r))
      ensures !Begins(s) ==> provider.provider.State() == old(provider.provider.State())
      ensures dispatch == DispatchConfirmed <==> r.Ok?
      ensures r.Ok? ==>
                && r.value.reference in provider.provider.credentials
                && provider.provider.credentials[r.value.reference]
      ensures old(provider.Undisturbed(permitted, CreateJoinCredential(RequestOf(v)))) ==>
                (r.Ok? <==> Begins(s) && s.confirmed && now < 600_000 <= v.expiresAt)
    {
      hide FakeProvider.Named, FakeProvider.Keyed, FakeProvider.Active, FakeProvider.WriteRefusal, FakeProvider.Conflicts;
      var begun := Begin(s);
      match begun { case Err(e) => return Err(e); case Ok(_) => }
      var outcome := provider.ExecuteMutation(permitted, CreateJoinCredential(RequestOf(v)));
      var contain: Option<string>;
      r, contain := Settle(outcome, v, now, s);
      if contain.Some? {
        if s.invalidation { var revoked := provider.ExecuteMutation(permitted, RevokeJoinCredential(contain.value)); }
        var ignored := RecordFailure(DispatchAmbiguous, s.recorded);
      }
    }
  }

  // ----------------------------------------------------------------- cleanup

  datatype Settlement =
    | SettledConfirmed | SettledAlready | Retryable | SettledAmbiguous | SettledAuthentication | SettledCompatibility
    | Blocked

  /** How `complete_cleanup` settles an invalidation. */
  function SettlementOf(o: Outcome, reference: string): Settlement {
    match o
    case Confirmed(e) => if e == CredentialRevoked(reference) then SettledConfirmed else Blocked
    case AlreadySatisfied(e) => if e == CredentialRevoked(reference) then SettledAlready else Blocked
    case Unavailable => Retryable
    case Failed(retryable) => if retryable then Retryable else Blocked
    case Ambiguous => SettledAmbiguous
    case AuthenticationFailed => SettledAuthentication
    case CompatibilityBlocked => SettledCompatibility
    case Rejected => Blocked
    case Conflict => Blocked
    case Unsupported => Blocked
  }

  /** What the caller of a cleanup is told once the settlement is recorded. */
  function SettlementError(s: Settlement): Option<ServiceError> {
    match s
    case SettledConfirmed => None
    case SettledAlready => None
    case Retryable => Some(ProviderUnavailable)
    case SettledAmbiguous => Some(AmbiguousRedemption)
    case SettledAuthentication => Some(ProviderAuthentication)
    case SettledCompatibility => Some(ProviderBlocked)
    case Blocked => Some(ProviderRejected)
  }

  /** What each settlement says of the outcome behind it. */
  lemma SettlementExactly(o: Outcome, reference: string)
    ensures var s := SettlementOf(o, reference);
            && (s == SettledConfirmed <==> o == Confirmed(CredentialRevoked(reference)))
            && (s == SettledAlready <==> o == AlreadySatisfied(CredentialRevoked(reference)))
            && (s == Retryable <==> o == Outcome.Unavailable || o == Failed(true))
            && (s == SettledAmbiguous <==> o == Outcome.Ambiguous)
            && (s == SettledAuthentication <==> o == AuthenticationFailed)
            && (s == SettledCompatibility <==> o == CompatibilityBlocked)
  {
  }

  /** What each answer of a cleanup says of its settlement. */
  lemma SettlementErrorExactly(s: Settlement)
    ensures SettlementError(s) == None <==> s == SettledConfirmed || s == SettledAlready
    ensures SettlementError(s) == Some(ProviderUnavailable) <==> s == Retryable
    ensures SettlementError(s) == Some(AmbiguousRedemption) <==> s == SettledAmbiguous
    ensures SettlementError(s) == Some(ProviderAuthentication) <==> s == SettledAuthentication
    ensures SettlementError(s) == Some(ProviderBlocked) <==> s == SettledCompatibility
    ensures SettlementError(s) == Some(ProviderRejected) <==> s == Blocked
  {
  }

  /** What is to be cleaned up: a credential, unless none was ever confirmed. */
  datatype CleanupTarget = CleanupTarget(reference: Option<string>, uncertain: bool)

  /** What the state store and the issuer answer during one cleanup: each refusal, if
   *  any. */
  datatype CleanupAnswers = CleanupAnswers(
    issued: Option<ServiceError>, settled: Option<ServiceError>, shown: Option<ServiceError>)

  function Shown(s: CleanupAnswers): Result<()> {
    match s.shown case Some(e) => Err(e) case None => Ok(())
  }

  /** `complete_cleanup`. `settlement` is the one recorded, if any: every credential gets
   *  one unless the store refuses it, and success is reported only of a recorded one
   *  that is done. With truthful lists it is done only when nobody can join with the
   *  credential any more. A refusal leaves the server as it was, unless the list read
   *  back repeats the credential: that is settled as blocked even if it was revoked. */
  method CleanUpAtHeadscale(
    target: CleanupTarget, s: CleanupAnswers, provider: HeadscaleProvider.Headscale, a: HeadscaleProvider.RevokeAnswers)
    returns (settlement: Option<Settlement>, r: Result<()>)
    modifies provider
    ensures settlement.Some? <==> target.reference.Some? && s.settled.None?
    ensures target.reference.Some? && s.settled.Some? ==> r == Err(s.settled.value)
    ensures settlement.Some? && s.issued.Some? ==> settlement == Some(Blocked)
    ensures r.Ok? ==> s.shown.None? && (if target.reference.None? then !target.uncertain
                                        else settlement in {Some(SettledConfirmed), Some(SettledAlready)})
    ensures target.reference.None? ==>
              && provider.keys == old(provider.keys)
              && r == if target.uncertain then Err(AmbiguousRedemption) else Shown(s)
    ensures settlement.Some? ==>
              r == match s.issued
                   case Some(e) => Err(e)
                   case None =>
                     match SettlementError(settlement.value) case Some(e) => Err(e) case None => Shown(s)
    ensures settlement == Some(SettledConfirmed) ==>
              a.after.Got? && (HeadscaleProvider.Truthful(a.after.value, provider.keys)
                               ==> HeadscaleProvider.Unusable(provider.keys, target.reference.value, a.later))
    ensures settlement == Some(SettledAlready) ==>
              a.before.Got? && (HeadscaleProvider.Truthful(a.before.value, provider.keys)
                                ==> HeadscaleProvider.Unusable(provider.keys, target.reference.value, a.now))
    ensures settlement in {Some(SettledAlready), Some(SettledAuthentication), Some(SettledCompatibility)} ==>
              provider.keys == old(provider.keys)
    ensures settlement == Some(Blocked) && provider.keys != old(provider.keys) ==>
              a.after.Got? && HeadscaleProvider.VerdictOf(a.after.value, target.reference.value, a.later).Repeated?
    ensures settlement.Some? && s.issued.None? && HeadscaleProvider.Submits(target.reference.value, a)
            && !a.post.Unauthorized? && a.after.Got?
            && HeadscaleProvider.VerdictOf(a.after.value, target.reference.value, a.later).Repeated?
            ==> settlement == Some(Blocked)
    ensures target.reference.Some? ==>
              provider.keys ==
              if s.issued.None? && HeadscaleProvider.Submits(target.reference.value, a)
                 && !a.post.Unauthorized? && a.post.applied && target.reference.value in old(provider.keys)
              then old(provider.keys)[target.reference.value :=
                     old(provider.keys)[target.reference.value].(expiration := Some(a.expiredAt))]
              else old(provider.keys)
  {
    match target.reference {
      case None => return None, if target.uncertain then Err(AmbiguousRedemption) else Shown(s);
      case Some(reference) =>
        match s.issued {
          case Some(e) =>
            match s.settled { case Some(refused) => return None, Err(refused); case None => return Some(Blocked), Err(e); }
          case None =>
        }
        var outcome := provider.RevokeJoinCredential(reference, a);
        var reached := SettlementOf(outcome, reference);
        match s.settled { case Some(refused) => return None, Err(refused); case None => }
        settlement := Some(reached);
        match SettlementError(reached) { case Some(e) => r := Err(e); case None => r := Shown(s); }
    }
  }

  /** Key 7 is revoked, and the list read back names it twice: the cleanup is settled as
   *  blocked and reported as rejected, although nobody can join with the key. */
  method RepeatedListBlocks()
    returns (settlement: Option<Settlement>, r: Result<()>, keys: map<string, HeadscaleProvider.Key>,
             listed: HeadscaleProvider.Listing)
    ensures settlement == Some(Blocked) && r == Err(ProviderRejected)
    ensures |listed| == 2 && HeadscaleProvider.Truthful(listed, keys)
    ensures keys.Keys == {"7"} && keys["7"].expiration == Some(2) && HeadscaleProvider.Unusable(keys, "7", 3)
  {
    HeadscaleProvider.SevenIsCanonical();
    var key := HeadscaleProvider.Key("1", false, false, false, Some(100), {});
    var dead := key.(expiration := Some(2));
    var provider := new HeadscaleProvider.Headscale(map["7" := key]);
    var before := [("7", key)];
    listed := [("7", dead), ("7", dead)];
    HeadscaleProvider.MatchingOne("7", key);
    HeadscaleProvider.MatchingOne("7", dead);
    assert listed[1..] == [("7", dead)];
    var a := HeadscaleProvider.RevokeAnswers(
      true, HeadscaleProvider.Got(Some(HeadscaleProvider.Version("v0.29.3", false))), HeadscaleProvider.Got(Some(true)),
      HeadscaleProvider.Got(before), HeadscaleProvider.Succeeded(true, None), 2, HeadscaleProvider.Got(listed), 1, 3);
    assert HeadscaleProvider.VerdictOf(before, "7", 1).Usable?;
    assert HeadscaleProvider.VerdictOf(listed, "7", 3).Repeated?;
    settlement, r := CleanUpAtHeadscale(
      CleanupTarget(Some("7"), false), CleanupAnswers(None, None, None), provider, a);
    keys := provider.keys;
    assert ("7", dead) in listed;
  }
}
