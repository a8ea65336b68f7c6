/** What providers are asked to do and how they say it went. */
module Mutations {
  import opened Options

  datatype Identity = Identity(instance: string, nodeId: string, key: string)

  datatype Node = Node(identity: Identity, hostname: string, tags: set<string>, expired: bool)

  datatype JoinRequest = JoinRequest(
    principal: string, reusable: bool, maxUses: nat, expiresAt: Option<int>, tags: set<string>)

  datatype Mutation =
    | EnsurePrincipal(principal: string)
    | CreateJoinCredential(request: JoinRequest)
    | RevokeJoinCredential(credential: string)
    | ReplaceNodeTags(target: Identity, tags: set<string>)
    | ExpireNode(target: Identity)
    | DeleteNode(target: Identity)
    | ApplyPolicy(expectedRevision: string, policy: string)

  datatype Evidence =
    | PrincipalPresent(principal: string)
    | JoinCredentialIssued(reference: string, expiresAt: int, maxUses: nat)
    | CredentialRevoked(credential: string)
    | NodeMatches(node: Node)
    | NodeAbsent(target: Identity)
    | PolicyMatches(revision: string)

  datatype Outcome =
    | Confirmed(evidence: Evidence)
    | AlreadySatisfied(evidence: Evidence)
    | Rejected
    | Failed(retryable: bool)
    | Unsupported
    | AuthenticationFailed
    | Unavailable
    | CompatibilityBlocked
    | Conflict
    | Ambiguous

  datatype ProviderError =
    | AuthenticationError | TimeoutError | TlsError | UnreachableError | ConflictError | UnsupportedError
    | RejectedError | MalformedError | AmbiguousError

  /** `outcome_from_error`, the same in both providers. */
  function OutcomeFromError(e: ProviderError): Outcome {
    match e
    case AuthenticationError => AuthenticationFailed
    case TimeoutError => Unavailable
    case TlsError => Unavailable
    case UnreachableError => Unavailable
    case ConflictError => Conflict
    case UnsupportedError => Unsupported
    case RejectedError => Rejected
    case MalformedError => Rejected
    case AmbiguousError => Ambiguous
  }

  /** What each class of outcome says of the error behind it. */
  lemma ErrorClasses(e: ProviderError)
    ensures OutcomeFromError(e).Unavailable? <==> e.TimeoutError? || e.TlsError? || e.UnreachableError?
    ensures OutcomeFromError(e).AuthenticationFailed? <==> e.AuthenticationError?
    ensures OutcomeFromError(e).Rejected? <==> e.RejectedError? || e.MalformedError?
    ensures OutcomeFromError(e).Conflict? <==> e.ConflictError?
    ensures OutcomeFromError(e).Unsupported? <==> e.UnsupportedError?
    ensures OutcomeFromError(e).Ambiguous? <==> e.AmbiguousError?
  {
  }

  /** The outcomes of a creation that `redeem` records as definitely not applied. */
  predicate DefiniteNoApply(o: Outcome) {
    o.Unavailable? || o.Rejected? || o.Conflict? || o.Unsupported? || o.AuthenticationFailed? || o.CompatibilityBlocked?
  }

  const ALLOWED_TAGS := {
    "tag:nodescale-node", "tag:nodescale-worker", "tag:nodescale-controller", "tag:nodescale-profile-host",
    "tag:nodescale-observer", "tag:nodescale-admin"}

  /** `MutationTags::new`. */
  predicate TagsOk(tags: set<string>) { tags != {} && |tags| <= 4 && tags <= ALLOWED_TAGS }
}
