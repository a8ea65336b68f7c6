/** Creating and revoking join credentials at a Headscale server.
 *
 *  The server's keys are the state. Every request carries how its exchange goes:
 *  what the server does with a write, and which answer, if any, comes back.
 */
module HeadscaleProvider {
  import opened Options
  import opened Encoding
  import opened Mutations

  // ----------------------------------------------------- canonical numbers

  /** `str::parse::<u64>`: an optional plus sign, then digits, within 64 bits. */
  function ParseU64(s: string): Option<nat> {
    var digits := if s != "" && s[0] == '+' then s[1..] else s;
    if digits == "" || exists i :: 0 <= i < |digits| && !Digit(digits[i]) then None
    else if DecimalValue(digits) < 0 || DecimalValue(digits) > 0xffff_ffff_ffff_ffff then None
    else Some(DecimalValue(digits))
  }

  /** `canonical_positive_u64`. */
  predicate CanonicalPositive(s: string) {
    ParseU64(s).Some? && ParseU64(s).value != 0 && Decimal(ParseU64(s).value) == s
  }

  /** A text is canonical exactly when it is the decimal form of a positive 64-bit
   *  number: no sign, no leading zero. */
  lemma CanonicalPositiveExactly(s: string)
    ensures CanonicalPositive(s) <==> exists n: nat :: 0 < n <= 0xffff_ffff_ffff_ffff && s == Decimal(n)
    ensures CanonicalPositive(s) ==> IdentifierOk(s)
  {
    forall n: nat | 0 < n <= 0xffff_ffff_ffff_ffff && s == Decimal(n) ensures CanonicalPositive(s) {
      DecimalDigits(n);
      DecimalRoundTrip(n);
    }
    if CanonicalPositive(s) {
      var n := ParseU64(s).value;
      DecimalDigits(n);
      U64Short(n);
    }
  }

  lemma SevenIsCanonical()
    ensures CanonicalPositive("7")
  {
    assert Decimal(7) == "7";
    CanonicalPositiveExactly("7");
  }

  // ------------------------------------------------------------- the server

  datatype Key = Key(
    user: string, reusable: bool, ephemeral: bool, used: bool, expiration: Option<int>, tags: set<string>)

  datatype Read<T> = NotRead(error: ProviderError) | Got(value: T)

  datatype Version = Version(version: string, dirty: bool)

  datatype User = User(id: string, name: string)

  datatype CreatedKey = CreatedKey(id: string, key: Key, secret: string)

  /** The fate of a write. The server's refusal for lack of authentication changes
   *  nothing; in every other case it may have applied the write. A success may
   *  come back without a readable body. */
  datatype Write<T> =
    | Unauthorized
    | OtherStatus(applied: bool)
    | Lost(applied: bool)
    | Succeeded(applied: bool, body: Option<T>)

  /** `ProviderJoinCredential::new`. */
  const SecretOk: string -> bool

  const MINUTE := 60_000
  const HOUR := 3_600_000

  /** The keys as a list names them; nothing keeps a list from repeating an ID. */
  type Listing = seq<(string, Key)>

  /** What the surroundings of one creation decide. */
  datatype CreateAnswers = CreateAnswers(
    authorized: bool,
    version: Read<Option<Version>>,
    health: Read<Option<bool>>,
    users: Read<Option<seq<User>>>,
    post: Write<CreatedKey>,
    stored: CreatedKey,
    list: Read<Listing>)

  datatype RevokeAnswers = RevokeAnswers(
    authorized: bool,
    version: Read<Option<Version>>,
    health: Read<Option<bool>>,
    before: Read<Listing>,
    post: Write<()>,
    expiredAt: int,
    after: Read<Listing>,
    now: int,
    later: int)

  /** `readiness`. */
  function Readiness(version: Read<Option<Version>>, health: Read<Option<bool>>): Option<Outcome> {
    match version
    case NotRead(e) => Some(OutcomeFromError(e))
    case Got(None) => Some(CompatibilityBlocked)
    case Got(Some(v)) =>
      if v.dirty || v.version != "v0.29.3" then Some(CompatibilityBlocked)
      else
        match health
        case NotRead(e) => Some(OutcomeFromError(e))
        case Got(None) => Some(CompatibilityBlocked)
        case Got(Some(connected)) => if connected then None else Some(CompatibilityBlocked)
  }

  /** The pinned release answers, and is connected to its database. */
  predicate Ready(version: Read<Option<Version>>, health: Read<Option<bool>>) {
    version == Got(Some(Version("v0.29.3", false))) && health == Got(Some(true))
  }

  /** A server is ready exactly when it is the pinned release, not dirty, and connected.
   *  Otherwise the first answer that was not read is reported by its class, and every
   *  other answer is a blocked compatibility. */
  lemma ReadinessExactly(version: Read<Option<Version>>, health: Read<Option<bool>>)
    ensures var pinned := Got(Some(Version("v0.29.3", false)));
            var o := Readiness(version, health);
            && (o.None? <==> version == pinned && health == Got(Some(true)))
            && (version.NotRead? ==> o == Some(OutcomeFromError(version.error)))
            && (version.Got? && version != pinned ==> o == Some(CompatibilityBlocked))
            && (version == pinned && health.NotRead? ==> o == Some(OutcomeFromError(health.error)))
            && (version == pinned && health.Got? && health != Got(Some(true)) ==> o == Some(CompatibilityBlocked))
  {
    if version.Got? && version.value.Some? {
      assert version == Got(Some(Version(version.value.value.version, version.value.value.dirty)));
    }
  }

  /** `local_intent_outcome` of a creation. */
  predicate IntentOk(r: JoinRequest, now: int) {
    && !r.reusable && r.maxUses == 1 && CanonicalPositive(r.principal)
    && |r.tags| <= 4 && r.tags <= ALLOWED_TAGS
    && (r.expiresAt.Some? ==> 5 * MINUTE <= r.expiresAt.value - now <= HOUR)
  }

  function ExpiryOf(r: JoinRequest, now: int): int {
    match r.expiresAt
    case Some(at) => at
    case None => now + 15 * MINUTE
  }

  /** In numbers: one use for the decimal ID of a user, at most four of the six tags, and
   *  a given expiry five minutes to an hour away; an expiry of fifteen minutes is chosen
   *  if none is given. */
  lemma IntentInNumbers(r: JoinRequest, now: int)
    ensures IntentOk(r, now) <==>
              && !r.reusable && r.maxUses == 1
              && (exists n: nat :: 0 < n <= 0xffff_ffff_ffff_ffff && r.principal == Decimal(n))
              && |r.tags| <= 4
              && (forall t :: t in r.tags ==>
                    || t == "tag:nodescale-node" || t == "tag:nodescale-worker" || t == "tag:nodescale-controller"
                    || t == "tag:nodescale-profile-host" || t == "tag:nodescale-observer" || t == "tag:nodescale-admin")
              && (r.expiresAt == None || now + 300_000 <= r.expiresAt.value <= now + 3_600_000)
    ensures r.expiresAt == None ==> ExpiryOf(r, now) == now + 900_000
    ensures r.expiresAt != None ==> r.expiresAt == Some(ExpiryOf(r, now))
  {
    CanonicalPositiveExactly(r.principal);
    hide CanonicalPositive, Decimal;
  }

  /** The unused single-use key that was asked for. */
  predicate AsRequested(k: Key, r: JoinRequest, expiry: int) {
    k.user == r.principal && !k.reusable && !k.ephemeral && !k.used && k.expiration == Some(expiry) && k.tags == r.tags
  }

  lemma RequestedKey(k: Key, r: JoinRequest, expiry: int)
    ensures AsRequested(k, r, expiry) <==> k == Key(r.principal, false, false, false, Some(expiry), r.tags)
  {
  }

  /** The principal read back is the one and only user. */
  predicate OneUser(users: Read<Option<seq<User>>>, principal: string) {
    users.Got? && users.value.Some? && |users.value.value| == 1 && users.value.value[0].id == principal
  }

  // ---------------------------------------------------------- key lists read

  predicate Expired(k: Key, at: int) { k.expiration.Some? && k.expiration.value <= at }

  /** A key that nobody can join with at this time. */
  predicate Unusable(keys: map<string, Key>, id: string, at: int) { id in keys ==> Expired(keys[id], at) }

  function Matching(list: Listing, id: string): seq<Key> {
    if list == [] then [] else (if list[0].0 == id then [list[0].1] else []) + Matching(list[1..], id)
  }

  datatype Verdict = Revoked | Usable | Repeated

  /** What a list says of one credential. */
  function VerdictOf(list: Listing, id: string, at: int): Verdict {
    var matching := Matching(list, id);
    if matching == [] then Revoked
    else if |matching| > 1 then Repeated
    else if Expired(matching[0], at) then Revoked
    else Usable
  }

  /** The list names exactly the server's keys, as they are, each at least once. */
  ghost predicate Truthful(list: Listing, keys: map<string, Key>) {
    && (forall e :: e in list ==> e.0 in keys && keys[e.0] == e.1)
    && (forall id :: id in keys ==> exists e :: e in list && e.0 == id)
  }

  /** The list has the unused single-use key that was asked for. */
  predicate ListsRequested(list: Listing, id: string, r: JoinRequest, expiry: int) {
    exists i :: 0 <= i < |list| && list[i].0 == id && AsRequested(list[i].1, r, expiry)
  }

  /** A creation is sent, answered as asked for, and found on the list read back. */
  predicate Issues(r: JoinRequest, now: int, a: CreateAnswers) {
    && a.authorized && IntentOk(r, now) && Ready(a.version, a.health) && OneUser(a.users, r.principal)
    && a.post.Succeeded? && a.post.body.Some? && a.list.Got?
    && var body := a.post.body.value;
       && CanonicalPositive(body.id) && AsRequested(body.key, r, ExpiryOf(r, now)) && SecretOk(body.secret)
       && ListsRequested(a.list.value, body.id, r, ExpiryOf(r, now))
  }

  lemma {:induction false} MatchingExactly(list: Listing, id: string, k: Key)
    ensures k in Matching(list, id) <==> (id, k) in list
  {
    if list != [] { MatchingExactly(list[1..], id, k); }
  }

  lemma MatchingOne(id: string, k: Key)
    ensures Matching([(id, k)], id) == [k]
  {
    var list := [(id, k)];
    assert list[1..] == [];
    assert Matching(list, id) == [k] + Matching(list[1..], id);
  }

  lemma {:induction false} MatchingCount(list: Listing, id: string)
    ensures Matching(list, id) == [] <==> forall i :: 0 <= i < |list| ==> list[i].0 != id
    ensures |Matching(list, id)| > 1 <==> exists i, j :: 0 <= i < j < |list| && list[i].0 == id && list[j].0 == id
  {
    if list != [] {
      var rest := list[1..];
      MatchingCount(rest, id);
      if i, j :| 0 <= i < j < |rest| && rest[i].0 == id && rest[j].0 == id {
        assert list[i + 1].0 == id && list[j + 1].0 == id;
      }
      if list[0].0 == id && Matching(rest, id) != [] {
        var j :| 0 <= j < |rest| && rest[j].0 == id;
        assert list[0].0 == id && list[j + 1].0 == id;
      }
      if i, j :| 0 <= i < j < |list| && list[i].0 == id && list[j].0 == id {
        assert rest[j - 1].0 == id;
        if i > 0 { assert rest[i - 1].0 == id; }
      }
    }
  }

  /** A list that names the credential twice is repeated; one that does not name it, or
   *  names it once with an expiry that has come, shows it as revoked. */
  lemma VerdictExactly(list: Listing, id: string, at: int)
    ensures VerdictOf(list, id, at).Repeated? <==>
              exists i, j :: 0 <= i < j < |list| && list[i].0 == id && list[j].0 == id
    ensures VerdictOf(list, id, at).Revoked? <==>
              !VerdictOf(list, id, at).Repeated?
              && forall i :: 0 <= i < |list| && list[i].0 == id ==>
                               list[i].1.expiration.Some? && list[i].1.expiration.value <= at
  {
    MatchingCount(list, id);
    var matching := Matching(list, id);
    if |matching| == 1 {
      MatchingExactly(list, id, matching[0]);
      forall i | 0 <= i < |list| && list[i].0 == id ensures list[i].1 == matching[0] {
        MatchingExactly(list, id, list[i].1);
      }
    }
  }

  /** Of a truthful list without repetition, the verdict on a credential is right. */
  lemma VerdictRight(list: Listing, keys: map<string, Key>, id: string, at: int)
    requires Truthful(list, keys)
    ensures VerdictOf(list, id, at).Revoked? ==> Unusable(keys, id, at)
    ensures VerdictOf(list, id, at).Usable? ==> id in keys && !Unusable(keys, id, at)
  {
    var matching := Matching(list, id);
    if matching != [] {
      MatchingExactly(list, id, matching[0]);
      assert (id, matching[0]) in list;
    } else if id in keys {
      var e :| e in list && e.0 == id;
      assert e == (id, e.1);
      MatchingExactly(list, id, e.1);
    }
  }

  /** A revocation gets as far as its POST. */
  predicate Submits(id: string, a: RevokeAnswers) {
    && a.authorized && CanonicalPositive(id) && Ready(a.version, a.health)
    && a.before.Got? && VerdictOf(a.before.value, id, a.now).Usable?
  }

  class Headscale {
    var keys: map<string, Key>

    constructor (keys: map<string, Key>)
      ensures this.keys == keys
    {
      this.keys := keys;
    }

    /** POST /api/v1/preauthkey. */
    method PostKey(post: Write<CreatedKey>, stored: CreatedKey) returns (r: Read<Option<CreatedKey>>)
      modifies this
      ensures keys == if !post.Unauthorized? && post.applied then old(keys)[stored.id := stored.key] else old(keys)
      ensures r == match post
                   case Unauthorized => NotRead(AuthenticationError)
                   case OtherStatus(_) => NotRead(RejectedError)
                   case Lost(_) => NotRead(UnreachableError)
                   case Succeeded(_, body) => Got(body)
    {
      if !post.Unauthorized? && post.applied { keys := keys[stored.id := stored.key]; }
      match post
      case Unauthorized => r := NotRead(AuthenticationError);
      case OtherStatus(_) => r := NotRead(RejectedError);
      case Lost(_) => r := NotRead(UnreachableError);
      case Succeeded(_, body) => r := Got(body);
    }

    /** POST /api/v1/preauthkey/expire. */
    method PostExpire(id: string, post: Write<()>, at: int) returns (refused: bool)
      modifies this
      ensures keys == if !post.Unauthorized? && post.applied && id in old(keys)
                      then old(keys)[id := old(keys)[id].(expiration := Some(at))] else old(keys)
      ensures refused == post.Unauthorized?
    {
      if !post.Unauthorized? && post.applied && id in keys { keys := keys[id := keys[id].(expiration := Some(at))]; }
      refused := post.Unauthorized?;
    }

    /** `execute_mutation` for a creation. `sent` says whether the write was reached.
     *
     *  Before it, nothing was gained, whatever the outcome. After it, the outcome is
     *  confirmed, ambiguous, or an authentication failure from a refused write. It
     *  is confirmed exactly when the answer is readable, describes the key asked
     *  for, and the list read back has that key; it then exists if the list is true. */
    method CreateJoinCredential(r: JoinRequest, now: int, a: CreateAnswers) returns (o: Outcome, sent: bool)
      modifies this
      ensures sent <==> a.authorized && IntentOk(r, now) && Ready(a.version, a.health) && OneUser(a.users, r.principal)
      ensures !sent ==> keys == old(keys) && (DefiniteNoApply(o) || o.Ambiguous?)
      ensures !a.authorized || !IntentOk(r, now) ==> o == Rejected
      ensures a.authorized && IntentOk(r, now) && !Ready(a.version, a.health) ==> Some(o) == Readiness(a.version, a.health)
      ensures a.authorized && IntentOk(r, now) && Ready(a.version, a.health) && !OneUser(a.users, r.principal) ==>
                o == if a.users.NotRead? then OutcomeFromError(a.users.error) else Rejected
      ensures sent ==> (o.AuthenticationFailed? <==> a.post.Unauthorized?)
      ensures sent ==> o.Confirmed? || o.Ambiguous? || o.AuthenticationFailed?
      ensures DefiniteNoApply(o) ==> keys == old(keys)
      ensures o.Confirmed? ==>
                && o.evidence.JoinCredentialIssued? && a.list.Got?
                && (Truthful(a.list.value, keys) ==>
                      o.evidence.reference in keys && AsRequested(keys[o.evidence.reference], r, ExpiryOf(r, now)))
      ensures o.Confirmed? <==> Issues(r, now, a)
      ensures o.Confirmed? ==> o.evidence == JoinCredentialIssued(a.post.body.value.id, ExpiryOf(r, now), 1)
    {
      hide Readiness, Decimal;
      sent := false;
      if !a.authorized { return Rejected, false; }
      if !IntentOk(r, now) { return Rejected, false; }
      ReadinessExactly(a.version, a.health);
      var unready := Readiness(a.version, a.health);
      if unready.Some? { return unready.value, false; }
      if r.reusable || r.maxUses != 1 || ParseU64(r.principal).None? || ParseU64(r.principal).value == 0 {
        return Rejected, false;
      }
      match a.users {
        case NotRead(e) => return OutcomeFromError(e), false;
        case Got(None) => return Rejected, false;
        case Got(Some(users)) => if |users| != 1 || users[0].id != r.principal { return Rejected, false; }
      }
      var expiry := ExpiryOf(r, now);
      sent := true;
      var answer := PostKey(a.post, a.stored);
      if answer == NotRead(AuthenticationError) { return AuthenticationFailed, true; }
      if answer.NotRead? || answer.value.None? { return Ambiguous, true; }
      var created := answer.value.value;
      if !CanonicalPositive(created.id) || !AsRequested(created.key, r, expiry) { return Ambiguous, true; }
      CanonicalPositiveExactly(created.id);
      if !IdentifierOk(created.id) {
        // `ProviderCredentialReference::new` never refuses a canonical number.
        assert false;
      }
      if !SecretOk(created.secret) { return Ambiguous, true; }
      if a.list.NotRead? { return Ambiguous, true; }
      if !ListsRequested(a.list.value, created.id, r, expiry) { return Ambiguous, true; }
      return Confirmed(JoinCredentialIssued(created.id, expiry, 1)), true;
    }

    /** `execute_mutation` for a revocation. The credential is reported as revoked only
     *  when a list showed it absent or expired. An outcome other than ambiguous,
     *  retryable or revoked leaves the server as it was, unless the list read back
     *  names the credential twice: that is a conflict even though it may have been
     *  revoked. */
    method RevokeJoinCredential(id: string, a: RevokeAnswers) returns (o: Outcome)
      modifies this
      ensures keys == if Submits(id, a) && !a.post.Unauthorized? && a.post.applied && id in old(keys)
                      then old(keys)[id := old(keys)[id].(expiration := Some(a.expiredAt))] else old(keys)
      ensures o.Confirmed? || o.AlreadySatisfied? ==> o.evidence == CredentialRevoked(id)
      ensures o.AlreadySatisfied? <==>
                && a.authorized && CanonicalPositive(id) && Ready(a.version, a.health)
                && a.before.Got? && VerdictOf(a.before.value, id, a.now).Revoked?
      ensures o.Confirmed? <==>
                Submits(id, a) && !a.post.Unauthorized? && a.after.Got? && VerdictOf(a.after.value, id, a.later).Revoked?
      ensures o.AlreadySatisfied? && Truthful(a.before.value, old(keys)) ==> Unusable(keys, id, a.now)
      ensures o.Confirmed? && Truthful(a.after.value, keys) ==> Unusable(keys, id, a.later)
      ensures !a.authorized || !CanonicalPositive(id) ==> o == Rejected
      ensures a.authorized && CanonicalPositive(id) && !Ready(a.version, a.health) ==>
                Some(o) == Readiness(a.version, a.health)
      ensures a.authorized && CanonicalPositive(id) && Ready(a.version, a.health) && a.before.NotRead? ==>
                o == OutcomeFromError(a.before.error)
      ensures a.authorized && CanonicalPositive(id) && Ready(a.version, a.health) && a.before.Got?
              && VerdictOf(a.before.value, id, a.now).Repeated? ==>
                o == Conflict
      ensures o.Failed? <==>
                Submits(id, a) && !a.post.Unauthorized? && a.after.Got? && VerdictOf(a.after.value, id, a.later).Usable?
      ensures o.Failed? ==> o.retryable && (Truthful(a.after.value, keys) ==> id in keys && !Unusable(keys, id, a.later))
      ensures Submits(id, a) ==>
                && (o.AuthenticationFailed? <==> a.post.Unauthorized?)
                && (o.Ambiguous? <==> !a.post.Unauthorized? && a.after.NotRead?)
                && (o.Conflict? <==>
                     !a.post.Unauthorized? && a.after.Got? && VerdictOf(a.after.value, id, a.later).Repeated?)
                && (DefiniteNoApply(o) ==> o.AuthenticationFailed? || o.Conflict?)
    {
      hide VerdictOf, CanonicalPositive, Truthful, Unusable, Readiness;
      if !a.authorized { return Rejected; }
      if !CanonicalPositive(id) { return Rejected; }
      ReadinessExactly(a.version, a.health);
      var unready := Readiness(a.version, a.health);
      if unready.Some? { return unready.value; }
      if a.before.NotRead? { return OutcomeFromError(a.before.error); }
      if Truthful(a.before.value, keys) { VerdictRight(a.before.value, keys, id, a.now); }
      match VerdictOf(a.before.value, id, a.now) {
        case Revoked => return AlreadySatisfied(CredentialRevoked(id));
        case Repeated => return Conflict;
        case Usable =>
      }
      var refused := PostExpire(id, a.post, a.expiredAt);
      if refused { return AuthenticationFailed; }
      if a.after.NotRead? { return Ambiguous; }
      if Truthful(a.after.value, keys) { VerdictRight(a.after.value, keys, id, a.later); }
      match VerdictOf(a.after.value, id, a.later) {
        case Revoked => return Confirmed(CredentialRevoked(id));
        case Usable => return Failed(true);
        case Repeated => return Conflict;
      }
    }
  }
}
