/** The deterministic in-memory provider and its mutation capability. */
module FakeProvider {
  import opened Options
  import opened Encoding
  import opened Mutations

  datatype Compatibility =
    | Compatible | CompatibleWithConstraints | ReadOnlyDegraded | UnsupportedVersion | CannotAuthenticate | Offline

  predicate AllowsMutation(c: Compatibility) { c == Compatible || c == CompatibleWithConstraints }

  datatype Injected = InjectUnavailable | InjectAuthentication | InjectAmbiguous | InjectRejected

  datatype Result<T> = Ok(value: T) | Err(error: ProviderError)

  /** 64-bit FNV digests as texts, left uninterpreted; two may collide. */
  const DeterministicUuid: (string, nat) -> string
  const PolicyRevision: string -> string

  /** `ProviderCredentialId::parse` followed by `to_string`. */
  const ParseCredentialId: string -> Option<string>

  const EXPIRY := 600_000

  /** `{n:04}`. */
  function Padded(n: nat): string {
    var s := Decimal(n);
    (if |s| == 1 then "000" else if |s| == 2 then "00" else if |s| == 3 then "0" else "") + s
  }

  function NodeName(n: nat): string { "fake-node-" + Padded(n) }

  function StableKey(n: nat): string { "fake-stable-key-" + Padded(n) }

  lemma {:induction false} ZeroInFront(s: string)
    ensures DecimalValue("0" + s) == DecimalValue(s)
  {
    var t := "0" + s;
    if s == "" {
      assert t[..0] == "";
    } else {
      assert t[..|t| - 1] == "0" + s[..|s| - 1];
      ZeroInFront(s[..|s| - 1]);
    }
  }

  lemma PaddedValue(n: nat)
    ensures DecimalValue(Padded(n)) == n
  {
    hide DecimalValue, Decimal;
    var s := Decimal(n);
    DecimalRoundTrip(n);
    ZeroInFront(s);
    ZeroInFront("0" + s);
    ZeroInFront("00" + s);
    assert "0" + ("0" + s) == "00" + s && "0" + ("00" + s) == "000" + s && "" + s == s;
  }

  /** No two nodes get the same name or key. */
  lemma NamesApart(m: nat, n: nat)
    ensures NodeName(m) == NodeName(n) <==> m == n
    ensures StableKey(m) == StableKey(n) <==> m == n
  {
    hide Padded, DecimalValue;
    PaddedValue(m);
    PaddedValue(n);
    assert NodeName(m)[10..] == Padded(m) && NodeName(n)[10..] == Padded(n);
    assert StableKey(m)[16..] == Padded(m) && StableKey(n)[16..] == Padded(n);
  }

  /** The error an injected failure stands for. */
  function Injection(f: Injected): ProviderError {
    match f
    case InjectUnavailable => UnreachableError
    case InjectAuthentication => AuthenticationError
    case InjectAmbiguous => AmbiguousError
    case InjectRejected => RejectedError
  }

  /** Why the provider refuses to be read: an injected failure before its own state. */
  function ReadRefusal(failure: Option<Injected>, c: Compatibility): Option<ProviderError> {
    if failure.Some? then Some(Injection(failure.value))
    else if c == Offline then Some(UnreachableError)
    else if c == CannotAuthenticate then Some(AuthenticationError)
    else None
  }

  function WriteRefusal(failure: Option<Injected>, c: Compatibility): Option<ProviderError> {
    if ReadRefusal(failure, c).None? && !AllowsMutation(c) then Some(UnsupportedError) else ReadRefusal(failure, c)
  }

  /** In full: which error is answered, and why. */
  lemma RefusalsExactly(failure: Option<Injected>, c: Compatibility)
    ensures WriteRefusal(failure, c) == None <==> failure == None && (c == Compatible || c == CompatibleWithConstraints)
    ensures WriteRefusal(failure, c) == Some(UnreachableError) <==>
              failure == Some(InjectUnavailable) || (failure == None && c == Offline)
    ensures WriteRefusal(failure, c) == Some(AuthenticationError) <==>
              failure == Some(InjectAuthentication) || (failure == None && c == CannotAuthenticate)
    ensures WriteRefusal(failure, c) == Some(AmbiguousError) <==> failure == Some(InjectAmbiguous)
    ensures WriteRefusal(failure, c) == Some(RejectedError) <==> failure == Some(InjectRejected)
    ensures WriteRefusal(failure, c) == Some(UnsupportedError) <==>
              failure == None && (c == ReadOnlyDegraded || c == UnsupportedVersion)
    ensures ReadRefusal(failure, c) == None <==> failure == None && c != Offline && c != CannotAuthenticate
    ensures ReadRefusal(failure, c) != None ==> ReadRefusal(failure, c) == WriteRefusal(failure, c)
  {
  }

  /** What the provider holds. */
  datatype Inventory = Inventory(
    nodes: map<string, Node>, credentials: map<string, bool>, principals: set<string>, policy: string)

  /** A node is stored under its own ID. */
  predicate Keyed(nodes: map<string, Node>) {
    forall k :: k in nodes ==> nodes[k].identity.nodeId == k
  }

  /** Every node has the name of an earlier join. */
  ghost predicate Named(nodes: map<string, Node>, next: nat) {
    forall k :: k in nodes ==> exists n: nat :: n < next && k == NodeName(n)
  }

  lemma NotNamedYet(nodes: map<string, Node>, next: nat)
    requires Named(nodes, next)
    ensures NodeName(next) !in nodes
  {
    hide NodeName;
    if NodeName(next) in nodes {
      var n: nat :| n < next && NodeName(next) == NodeName(n);
      NamesApart(next, n);
    }
  }

  /** Nodes that are removed or rewritten leave the others' names alone. */
  lemma NamedStill(nodes: map<string, Node>, next: nat, k: string, node: Node)
    requires Named(nodes, next)
    ensures Named(nodes - {k}, next)
    ensures k in nodes ==> Named(nodes[k := node], next)
  {
    hide NodeName;
  }

  lemma NamedAfter(nodes: map<string, Node>, next: nat, node: Node)
    requires Named(nodes, next)
    ensures Named(nodes[NodeName(next) := node], next + 1)
  {
    hide NodeName;
  }

  function Active(credentials: map<string, bool>): set<string> {
    set k | k in credentials && credentials[k]
  }

  lemma ActiveAfter(credentials: map<string, bool>, k: string, active: bool)
    ensures Active(credentials[k := active]) ==
            if active then Active(credentials) + {k} else Active(credentials) - {k}
  {
  }

  /** What the evidence of an outcome claims, and that it answers this mutation. */
  predicate Holds(i: Inventory, m: Mutation, e: Evidence) {
    match e
    case PrincipalPresent(p) => m == EnsurePrincipal(p) && p in i.principals
    case JoinCredentialIssued(reference, expiresAt, uses) =>
      m.CreateJoinCredential? && uses == 1 && expiresAt == 600_000 && reference in i.credentials && i.credentials[reference]
    case CredentialRevoked(c) =>
      m == RevokeJoinCredential(c) && ParseCredentialId(c).Some?
      && ParseCredentialId(c).value in i.credentials && !i.credentials[ParseCredentialId(c).value]
    case NodeMatches(n) =>
      && n.identity.nodeId in i.nodes && i.nodes[n.identity.nodeId] == n
      && (m == ReplaceNodeTags(n.identity, n.tags) || (m == ExpireNode(n.identity) && n.expired))
    case NodeAbsent(target) =>
      m == DeleteNode(target) && !(target.nodeId in i.nodes && i.nodes[target.nodeId].identity == target)
    case PolicyMatches(revision) => m.ApplyPolicy? && revision == PolicyRevision(i.policy) && i.policy == m.policy
  }

  predicate Refusal(o: Outcome) {
    o.Rejected? || o.Unsupported? || o.Unavailable? || o.AuthenticationFailed? || o.CompatibilityBlocked?
  }

  /** What one applied mutation leaves. */
  predicate Applied(before: Inventory, after: Inventory, m: Mutation) {
    match m
    case EnsurePrincipal(p) => after == before.(principals := before.principals + {p})
    case CreateJoinCredential(_) =>
      exists id :: id in after.credentials && after == before.(credentials := before.credentials[id := true])
    case RevokeJoinCredential(c) =>
      ParseCredentialId(c).Some?
      && after == before.(credentials := before.credentials[ParseCredentialId(c).value := false])
    case ReplaceNodeTags(t, tags) =>
      t.nodeId in before.nodes
      && after == before.(nodes := before.nodes[t.nodeId := before.nodes[t.nodeId].(tags := tags)])
    case ExpireNode(t) =>
      t.nodeId in before.nodes
      && after == before.(nodes := before.nodes[t.nodeId := before.nodes[t.nodeId].(expired := true)])
    case DeleteNode(t) => after == before.(nodes := before.nodes - {t.nodeId})
    case ApplyPolicy(_, policy) => after == before.(policy := policy)
  }

  /** Nothing but the mutation happens. Evidence is true afterwards; a refusal, and
   *  an outcome already satisfied, leave everything as it was; so does any definite
   *  outcome of a creation. */
  predicate Sound(before: Inventory, after: Inventory, m: Mutation, o: Outcome) {
    && (after == before || Applied(before, after, m))
    && (o.Confirmed? ==> Applied(before, after, m))
    && (o.Confirmed? || o.AlreadySatisfied? ==> Holds(after, m, o.evidence))
    && (o.AlreadySatisfied? || Refusal(o) ==> after == before)
    && (m.CreateJoinCredential? && DefiniteNoApply(o) ==> after == before)
  }

  lemma SoundUnchanged(i: Inventory, m: Mutation, o: Outcome)
    requires !o.Confirmed? && (o.AlreadySatisfied? ==> Holds(i, m, o.evidence))
    ensures Sound(i, i, m, o)
  {
  }

  lemma SoundWrite(before: Inventory, after: Inventory, m: Mutation, o: Outcome)
    requires Applied(before, after, m) && !m.CreateJoinCredential?
    requires (o.Confirmed? && Holds(after, m, o.evidence)) || o.Failed? || o.Conflict? || o.Ambiguous?
    ensures Sound(before, after, m, o)
  {
  }

  predicate Found(i: Inventory, t: Identity) { t.nodeId in i.nodes && i.nodes[t.nodeId].identity == t }

  /** What a mutation must satisfy for an undisturbed provider to carry it out. */
  predicate Possible(i: Inventory, instance: string, m: Mutation) {
    match m
    case EnsurePrincipal(p) => p != ""
    case CreateJoinCredential(request) => request.maxUses == 1 && !request.reusable
    case RevokeJoinCredential(c) => ParseCredentialId(c).Some? && ParseCredentialId(c).value in i.credentials
    case ReplaceNodeTags(t, tags) => TagsOk(tags) && t.instance == instance && Found(i, t)
    case ExpireNode(t) => t.instance == instance && Found(i, t)
    case DeleteNode(t) => t.instance == instance
    case ApplyPolicy(expected, _) => PolicyRevision(i.policy) == expected
  }

  predicate Done(o: Outcome) { o.Confirmed? || o.AlreadySatisfied? }

  class Provider {
    const fixture: string
    const instance: string
    var compatibility: Compatibility
    var nodes: map<string, Node>
    var credentials: map<string, bool>
    var principals: set<string>
    var policyDocument: string
    var nextNode: nat
    var nextCredential: nat
    var nextFailure: Option<Injected>

    function State(): Inventory
      reads this
    {
      Inventory(nodes, credentials, principals, policyDocument)
    }

    /** Every join used up a credential: active credentials and joins never exceed
     *  the credentials created. */
    ghost predicate Valid()
      reads this
    {
      && nextNode >= 1 && nextCredential >= 1 && Keyed(nodes) && Named(nodes, nextNode)
      && |Active(credentials)| + (nextNode - 1) <= nextCredential - 1
    }

    constructor (fixture: string, instance: string, compatibility: Compatibility)
      ensures Valid() && State() == Inventory(map[], map[], {}, "{}")
    {
      this.fixture, this.instance, this.compatibility := fixture, instance, compatibility;
      nodes, credentials, principals, policyDocument := map[], map[], {}, "{}";
      nextNode, nextCredential, nextFailure := 1, 1, None;
    }

    method FailNext(failure: Injected)
      requires Valid()
      modifies this`nextFailure
      ensures Valid() && nextFailure == Some(failure)
    {
      nextFailure := Some(failure);
    }

    /** An injected failure strikes once. */
    method InjectedFailure() returns (r: Result<()>)
      modifies this`nextFailure
      ensures nextFailure == None
      ensures r == match old(nextFailure) case None => Ok(()) case Some(f) => Err(Injection(f))
    {
      match nextFailure {
        case None => r := Ok(());
        case Some(InjectUnavailable) => r := Err(UnreachableError);
        case Some(InjectAuthentication) => r := Err(AuthenticationError);
        case Some(InjectAmbiguous) => r := Err(AmbiguousError);
        case Some(InjectRejected) => r := Err(RejectedError);
      }
      nextFailure := None;
    }

    method CheckRead() returns (r: Result<()>)
      modifies this`nextFailure
      ensures nextFailure == None
      ensures r == match ReadRefusal(old(nextFailure), compatibility) case None => Ok(()) case Some(e) => Err(e)
    {
      r := InjectedFailure();
      if r.Err? { return; }
      if compatibility == Offline { return Err(UnreachableError); }
      if compatibility == CannotAuthenticate { return Err(AuthenticationError); }
    }

    method CheckMutation() returns (r: Result<()>)
      modifies this`nextFailure
      ensures nextFailure == None
      ensures r == match WriteRefusal(old(nextFailure), compatibility) case None => Ok(()) case Some(e) => Err(e)
    {
      r := CheckRead();
      if r.Err? { return; }
      if !AllowsMutation(compatibility) { return Err(UnsupportedError); }
    }

    /** A node joins with an active credential, which it uses up: it is found afterwards,
     *  beside every node that joined before, under a name and a key of its own. */
    method ObserveJoin(credential: string, hostname: string) returns (r: Result<Node>)
      requires Valid()
      modifies this
      ensures Valid() && nextFailure == None && compatibility == old(compatibility)
      ensures r.Ok? <==> old(nextFailure) == None && AllowsMutation(compatibility)
                         && credential in old(credentials) && old(credentials)[credential]
      ensures r.Ok? ==>
                && r.value == Node(Identity(instance, NodeName(old(nextNode)), StableKey(old(nextNode))), hostname, {}, false)
                && NodeName(old(nextNode)) !in old(nodes)
                && State() == Inventory(old(nodes)[NodeName(old(nextNode)) := r.value],
                                        old(credentials)[credential := false], old(principals), old(policyDocument))
                && nextNode == old(nextNode) + 1 && nextCredential == old(nextCredential)
                && Active(credentials) == Active(old(credentials)) - {credential}
      ensures r.Err? ==>
                && State() == old(State()) && nextNode == old(nextNode) && nextCredential == old(nextCredential)
                && r.error == match WriteRefusal(old(nextFailure), compatibility) case Some(e) => e case None => RejectedError
    {
      hide NodeName, StableKey, Named;
      var checked := CheckMutation();
      if checked.Err? { return Err(checked.error); }
      if credential !in credentials || !credentials[credential] { return Err(RejectedError); }
      ActiveAfter(credentials, credential, false);
      assert credential in Active(credentials);
      credentials := credentials[credential := false];
      var identity := Identity(instance, NodeName(nextNode), StableKey(nextNode));
      var node := Node(identity, hostname, {}, false);
      NotNamedYet(nodes, nextNode);
      NamedAfter(nodes, nextNode, node);
      nextNode := nextNode + 1;
      nodes := nodes[identity.nodeId := node];
      return Ok(node);
    }

    method CreateCredential(request: JoinRequest) returns (r: Result<string>)
      requires Valid()
      modifies this
      ensures Valid() && nextFailure == None && compatibility == old(compatibility)
      ensures r.Ok? <==> old(nextFailure) == None && AllowsMutation(compatibility)
                         && request.maxUses == 1 && !request.reusable
      ensures r.Ok? ==> State() == old(State()).(credentials := old(credentials)[r.value := true])
                        && nextCredential == old(nextCredential) + 1
      ensures r.Ok? ==> r.value == DeterministicUuid(fixture, old(nextCredential))
      ensures r.Err? ==>
                && State() == old(State()) && nextCredential == old(nextCredential)
                && r.error == match WriteRefusal(old(nextFailure), compatibility) case Some(e) => e case None => RejectedError
      ensures nextNode == old(nextNode)
    {
      var checked := CheckMutation();
      if checked.Err? { return Err(checked.error); }
      if request.maxUses != 1 || request.reusable { return Err(RejectedError); }
      var sequence := nextCredential;
      nextCredential := nextCredential + 1;
      var id := DeterministicUuid(fixture, sequence);
      ActiveAfter(credentials, id, true);
      credentials := credentials[id := true];
      return Ok(id);
    }

    method RevokeCredential(id: string) returns (r: Result<()>)
      requires Valid()
      modifies this
      ensures Valid() && nextFailure == None && compatibility == old(compatibility)
      ensures r.Ok? <==> old(nextFailure) == None && AllowsMutation(compatibility) && id in old(credentials)
      ensures State() == if r.Ok? then old(State()).(credentials := old(credentials)[id := false]) else old(State())
      ensures r.Err? ==>
                r.error == match WriteRefusal(old(nextFailure), compatibility) case Some(e) => e case None => RejectedError
    {
      var checked := CheckMutation();
      if checked.Err? { return checked; }
      if id !in credentials { return Err(RejectedError); }
      ActiveAfter(credentials, id, false);
      assert |Active(credentials) - {id}| <= |Active(credentials)|;
      credentials := credentials[id := false];
      return Ok(());
    }

    function Find(identity: Identity): Option<Node>
      reads this
    {
      if identity.nodeId in nodes && nodes[identity.nodeId].identity == identity
      then Some(nodes[identity.nodeId]) else None
    }

    method GetNode(identity: Identity) returns (r: Result<Option<Node>>)
      modifies this`nextFailure
      ensures nextFailure == None
      ensures r.Ok? <==> old(nextFailure) == None && compatibility != Offline && compatibility != CannotAuthenticate
                         && identity.instance == instance
      ensures r.Ok? ==> r.value == Find(identity)
      ensures r.Err? ==>
                r.error == match ReadRefusal(old(nextFailure), compatibility) case Some(e) => e case None => ConflictError
    {
      var checked := CheckRead();
      if checked.Err? { return Err(checked.error); }
      if identity.instance != instance { return Err(ConflictError); }
      return Ok(Find(identity));
    }

    /** The checks of `set_node_tags`, `expire_node` and `delete_node`. */
    method CheckNode(identity: Identity) returns (r: Result<()>)
      modifies this`nextFailure
      ensures nextFailure == None
      ensures r.Ok? <==> old(nextFailure) == None && AllowsMutation(compatibility) && identity.instance == instance
                         && Find(identity).Some?
    {
      r := CheckMutation();
      if r.Err? { return; }
      if identity.instance != instance { return Err(ConflictError); }
      if identity.nodeId !in nodes { return Err(RejectedError); }
      if nodes[identity.nodeId].identity != identity { return Err(ConflictError); }
    }
  }

  // -------------------------------------------------------- the mutation side

  datatype Script =
    | BeforeSendUnavailable | BeforeSendAuthenticationFailed | BeforeSendRejected | BeforeSendConflict
    | AfterApplyResponseLoss | AfterApplyReadBackUnavailable | AfterApplyReadBackOld | AfterApplyReadBackConflict

  datatype Capability = Principals | Creation | Invalidation | Tags | Expiry | Deletion | Policy

  function CapabilityOf(m: Mutation): Capability {
    match m
    case EnsurePrincipal(_) => Principals
    case CreateJoinCredential(_) => Creation
    case RevokeJoinCredential(_) => Invalidation
    case ReplaceNodeTags(_, _) => Tags
    case ExpireNode(_) => Expiry
    case DeleteNode(_) => Deletion
    case ApplyPolicy(_, _) => Policy
  }

  /** Nothing is left to do. */
  predicate Already(i: Inventory, m: Mutation) {
    match m
    case RevokeJoinCredential(c) =>
      ParseCredentialId(c).Some? && ParseCredentialId(c).value in i.credentials && !i.credentials[ParseCredentialId(c).value]
    case ReplaceNodeTags(t, tags) => t.nodeId in i.nodes && i.nodes[t.nodeId].tags == tags
    case ExpireNode(t) => t.nodeId in i.nodes && i.nodes[t.nodeId].expired
    case DeleteNode(t) => !Found(i, t)
    case ApplyPolicy(_, policy) => i.policy == policy
    case _ => false
  }

  /** An impossible mutation is a conflict if it names another policy revision or, with
   *  tags that pass, another instance. */
  predicate Conflicts(instance: string, m: Mutation) {
    match m
    case ReplaceNodeTags(t, tags) => TagsOk(tags) && t.instance != instance
    case ExpireNode(t) => t.instance != instance
    case DeleteNode(t) => t.instance != instance
    case ApplyPolicy(_, _) => true
    case _ => false
  }

  /** What is answered after the write, as the script has the read-back go. A credential
   *  whose answer is disturbed at all is never delivered, and a policy's read-back
   *  cannot be told from an unknown state. */
  predicate ReadBackAs(held: bool, m: Mutation, script: Option<Script>, o: Outcome) {
    match script
    case Some(AfterApplyReadBackUnavailable) => o == Ambiguous
    case Some(AfterApplyReadBackOld) =>
      o == if m.CreateJoinCredential? || m.ApplyPolicy? then Ambiguous else Failed(true)
    case Some(AfterApplyReadBackConflict) =>
      o == if m.CreateJoinCredential? || m.ApplyPolicy? then Ambiguous else Conflict
    case _ =>
      if m.CreateJoinCredential? && script.Some? then o == Ambiguous
      else if held then o.AlreadySatisfied?
      else o.Confirmed?
  }

  /** How a mutation that reached the provider ends: refused without a change, satisfied
   *  already, or applied and read back as scripted. */
  predicate Ends(before: Inventory, after: Inventory, instance: string, m: Mutation, script: Option<Script>, o: Outcome) {
    if !Possible(before, instance, m) then after == before && o == if Conflicts(instance, m) then Conflict else Rejected
    else if Already(before, m) then after == before && o.AlreadySatisfied?
    else Applied(before, after, m) && ReadBackAs(m.EnsurePrincipal? && m.principal in before.principals, m, script, o)
  }

  /** A refusal, and an outcome already satisfied, change nothing. */
  lemma Unchanged(i: Inventory, instance: string, m: Mutation, script: Option<Script>, o: Outcome)
    requires if Possible(i, instance, m) then Already(i, m) && o.AlreadySatisfied? && Holds(i, m, o.evidence)
             else o == if Conflicts(instance, m) then Conflict else Rejected
    ensures Sound(i, i, m, o) && Ends(i, i, instance, m, script, o)
  {
    hide Possible, Already, Conflicts, Holds;
    SoundUnchanged(i, m, o);
  }

  /** A write to a node that was found, and was not yet as asked for. */
  lemma NodeWritten(before: Inventory, after: Inventory, instance: string, m: Mutation, script: Option<Script>, o: Outcome)
    requires m.ReplaceNodeTags? || m.ExpireNode? || m.DeleteNode?
    requires Possible(before, instance, m) && !Already(before, m) && Applied(before, after, m)
    requires ReadBackAs(false, m, script, o) && (o.Confirmed? ==> Holds(after, m, o.evidence))
    ensures Sound(before, after, m, o) && Ends(before, after, instance, m, script, o)
  {
    hide Possible, Already, Applied, Holds;
    SoundWrite(before, after, m, o);
  }

  lemma EndsDone(before: Inventory, after: Inventory, instance: string, m: Mutation, o: Outcome)
    requires Ends(before, after, instance, m, None, o)
    ensures Done(o) <==> Possible(before, instance, m)
  {
    hide Possible, Applied;
  }

  /** What a mutation comes to, kind by kind, when no script disturbs it. */
  lemma PrincipalExactly(before: Inventory, after: Inventory, instance: string, p: string, o: Outcome)
    requires Ends(before, after, instance, EnsurePrincipal(p), None, o)
    ensures p == "" ==> after == before && o == Rejected
    ensures p != "" ==>
              && after == before.(principals := before.principals + {p})
              && (if p in before.principals then o.AlreadySatisfied? else o.Confirmed?)
  {
  }

  lemma CredentialExactly(before: Inventory, after: Inventory, instance: string, r: JoinRequest, o: Outcome)
    requires Ends(before, after, instance, CreateJoinCredential(r), None, o)
    ensures r.maxUses != 1 || r.reusable ==> after == before && o == Rejected
    ensures r.maxUses == 1 && !r.reusable ==>
              o.Confirmed? && exists id :: id in after.credentials && after == before.(credentials := before.credentials[id := true])
  {
  }

  lemma RevocationExactly(before: Inventory, after: Inventory, instance: string, c: string, o: Outcome)
    requires Ends(before, after, instance, RevokeJoinCredential(c), None, o)
    ensures var id := ParseCredentialId(c);
            && (id.None? || id.value !in before.credentials ==> after == before && o == Rejected)
            && (id.Some? && id.value in before.credentials ==>
                  && after.credentials == before.credentials[id.value := false]
                  && after == before.(credentials := after.credentials)
                  && (if before.credentials[id.value] then o.Confirmed? else o.AlreadySatisfied?))
  {
  }

  lemma TagsExactly(before: Inventory, after: Inventory, instance: string, t: Identity, tags: set<string>, o: Outcome)
    requires Ends(before, after, instance, ReplaceNodeTags(t, tags), None, o)
    ensures var found := t.nodeId in before.nodes && before.nodes[t.nodeId].identity == t;
            var valid := tags != {} && |tags| <= 4 && tags <= ALLOWED_TAGS;
            && (!valid || (t.instance == instance && !found) ==> after == before && o == Rejected)
            && (valid && t.instance != instance ==> after == before && o == Conflict)
            && (valid && t.instance == instance && found ==>
                  && after == before.(nodes := before.nodes[t.nodeId := before.nodes[t.nodeId].(tags := tags)])
                  && (if before.nodes[t.nodeId].tags == tags then o.AlreadySatisfied? else o.Confirmed?))
  {
  }

  lemma ExpiryExactly(before: Inventory, after: Inventory, instance: string, t: Identity, o: Outcome)
    requires Ends(before, after, instance, ExpireNode(t), None, o)
    ensures var found := t.nodeId in before.nodes && before.nodes[t.nodeId].identity == t;
            && (t.instance != instance ==> after == before && o == Conflict)
            && (t.instance == instance && !found ==> after == before && o == Rejected)
            && (t.instance == instance && found ==>
                  && after == before.(nodes := before.nodes[t.nodeId := before.nodes[t.nodeId].(expired := true)])
                  && (if before.nodes[t.nodeId].expired then o.AlreadySatisfied? else o.Confirmed?))
  {
  }

  lemma DeletionExactly(before: Inventory, after: Inventory, instance: string, t: Identity, o: Outcome)
    requires Ends(before, after, instance, DeleteNode(t), None, o)
    ensures var found := t.nodeId in before.nodes && before.nodes[t.nodeId].identity == t;
            && (t.instance != instance ==> after == before && o == Conflict)
            && (t.instance == instance && !found ==> after == before && o.AlreadySatisfied?)
            && (t.instance == instance && found ==> after == before.(nodes := before.nodes - {t.nodeId}) && o.Confirmed?)
  {
  }

  lemma PolicyExactly(before: Inventory, after: Inventory, instance: string, expected: string, policy: string, o: Outcome)
    requires Ends(before, after, instance, ApplyPolicy(expected, policy), None, o)
    ensures PolicyRevision(before.policy) != expected ==> after == before && o == Conflict
    ensures PolicyRevision(before.policy) == expected ==>
              && after == before.(policy := policy)
              && (if before.policy == policy then o.AlreadySatisfied? else o.Confirmed?)
  {
  }

  /** A disturbed read-back leaves what an undisturbed one would, and is never taken for
   *  success: only a lost response is, where the read-back proves the write. */
  lemma DisturbedExactly(
    before: Inventory, after: Inventory, instance: string, m: Mutation, script: Script, o: Outcome)
    requires Ends(before, after, instance, m, Some(script), o) && Possible(before, instance, m) && !Already(before, m)
    ensures Applied(before, after, m)
    ensures script == AfterApplyReadBackUnavailable ==> o == Ambiguous
    ensures script == AfterApplyReadBackOld ==>
              if m.CreateJoinCredential? || m.ApplyPolicy? then o == Ambiguous else o == Failed(true)
    ensures script == AfterApplyReadBackConflict ==>
              if m.CreateJoinCredential? || m.ApplyPolicy? then o == Ambiguous else o == Conflict
    ensures script == AfterApplyResponseLoss ==> if m.CreateJoinCredential? then o == Ambiguous else Done(o)
  {
    hide Applied, Possible, Already;
  }

  class MutationProvider {
    const provider: Provider
    const enabled: bool
    const databasePolicy: bool
    var scripts: map<Capability, seq<Script>>

    constructor (provider: Provider, enabled: bool, databasePolicy: bool)
      ensures this.provider == provider && this.enabled == enabled && this.databasePolicy == databasePolicy
      ensures scripts == map[]
    {
      this.provider, this.enabled, this.databasePolicy := provider, enabled, databasePolicy;
      scripts := map[];
    }

    predicate Scripted(c: Capability)
      reads this
    {
      c in scripts && scripts[c] != []
    }

    /** The script that the next mutation of this capability takes. */
    function NextScript(c: Capability): Option<Script>
      reads this
    {
      if Scripted(c) then Some(scripts[c][0]) else None
    }

    method Script(c: Capability, script: Script)
      modifies this`scripts
      ensures scripts == old(scripts)[c := (if c in old(scripts) then old(scripts)[c] else []) + [script]]
    {
      scripts := scripts[c := (if c in scripts then scripts[c] else []) + [script]];
    }

    method TakeScript(c: Capability) returns (script: Option<Script>)
      modifies this`scripts
      ensures script == old(NextScript(c))
      ensures scripts == if script.Some? then old(scripts)[c := old(scripts)[c][1..]] else old(scripts)
    {
      if c in scripts && scripts[c] != [] {
        script := Some(scripts[c][0]);
        scripts := scripts[c := scripts[c][1..]];
      } else {
        script := None;
      }
    }

    /** Whether the provider admits mutations now; nothing is injected any more
     *  once it has answered. */
    method Inspect() returns (refusal: Option<Outcome>)
      requires provider.Valid()
      modifies provider`nextFailure
      ensures provider.nextFailure == None
      ensures refusal == match WriteRefusal(old(provider.nextFailure), provider.compatibility)
                         case None => None
                         case Some(UnsupportedError) => Some(CompatibilityBlocked)
                         case Some(e) => Some(OutcomeFromError(e))
    {
      var inspected := provider.InjectedFailure();
      if inspected.Err? { return Some(OutcomeFromError(inspected.error)); }
      if provider.compatibility == CannotAuthenticate { return Some(AuthenticationFailed); }
      if provider.compatibility == Offline { return Some(Unavailable); }
      if !AllowsMutation(provider.compatibility) { return Some(CompatibilityBlocked); }
      return None;
    }

    /** The mutation reaches the provider, which admits it. */
    predicate Admitted(permitted: bool, m: Mutation)
      reads this, provider
    {
      && enabled && permitted && (m.ApplyPolicy? ==> databasePolicy)
      && provider.nextFailure == None && AllowsMutation(provider.compatibility)
    }

    /** What is refused before any script is taken. */
    predicate RefusedAs(permitted: bool, m: Mutation, o: Outcome)
      reads this, provider
    {
      if !enabled || !permitted then o == Rejected
      else if m.ApplyPolicy? && !databasePolicy then o == Unsupported
      else
        match WriteRefusal(provider.nextFailure, provider.compatibility)
        case None => false
        case Some(UnsupportedError) => o == CompatibilityBlocked
        case Some(e) => o == OutcomeFromError(e)
    }

    /** Nothing stands in the way of a mutation. */
    predicate Undisturbed(permitted: bool, m: Mutation)
      reads this, provider
    {
      Admitted(permitted, m) && !Scripted(CapabilityOf(m))
    }

    /** `execute_mutation`: sound for every state, every injected failure and every
     *  script. A mutation that is not admitted changes nothing; one that is takes the
     *  next script of its capability, which refuses it before it is sent or decides how
     *  it ends. So, undisturbed, it is done exactly if possible. */
    method ExecuteMutation(permitted: bool, m: Mutation) returns (o: Outcome)
      requires provider.Valid()
      modifies this`scripts, provider
      ensures provider.Valid() && Sound(old(provider.State()), provider.State(), m, o)
      ensures !old(Admitted(permitted, m)) ==>
                old(RefusedAs(permitted, m, o)) && provider.State() == old(provider.State()) && scripts == old(scripts)
      ensures old(Admitted(permitted, m)) ==>
                && match old(NextScript(CapabilityOf(m)))
                   case Some(BeforeSendUnavailable) => o == Unavailable && provider.State() == old(provider.State())
                   case Some(BeforeSendAuthenticationFailed) =>
                     o == AuthenticationFailed && provider.State() == old(provider.State())
                   case Some(BeforeSendRejected) => o == Rejected && provider.State() == old(provider.State())
                   case Some(BeforeSendConflict) => o == Conflict && provider.State() == old(provider.State())
                   case script => Ends(old(provider.State()), provider.State(), provider.instance, m, script, o)
      ensures old(Admitted(permitted, m)) && old(Scripted(CapabilityOf(m))) ==>
                scripts == old(scripts)[CapabilityOf(m) := old(scripts)[CapabilityOf(m)][1..]]
      ensures old(Undisturbed(permitted, m)) ==>
                (Done(o) <==> Possible(old(provider.State()), provider.instance, m))
    {
      hide Possible, Applied, Sound, Ends, Holds, ReadRefusal, WriteRefusal, Named, Keyed, Active;
      ghost var before := provider.State();
      RefusalsExactly(provider.nextFailure, provider.compatibility);
      if !enabled || !permitted { SoundUnchanged(before, m, Rejected); return Rejected; }
      if m.ApplyPolicy? && !databasePolicy { SoundUnchanged(before, m, Unsupported); return Unsupported; }
      var refusal := Inspect();
      if refusal.Some? { SoundUnchanged(before, m, refusal.value); return refusal.value; }
      var script := TakeScript(CapabilityOf(m));
      match script {
        case Some(BeforeSendUnavailable) => o := Unavailable; SoundUnchanged(before, m, o); return;
        case Some(BeforeSendAuthenticationFailed) => o := AuthenticationFailed; SoundUnchanged(before, m, o); return;
        case Some(BeforeSendRejected) => o := Rejected; SoundUnchanged(before, m, o); return;
        case Some(BeforeSendConflict) => o := Conflict; SoundUnchanged(before, m, o); return;
        case _ =>
      }
      o := Dispatch(m, script);
      if script.None? { EndsDone(before, provider.State(), provider.instance, m, o); }
    }

    /** The arm of the mutation. */
    method Dispatch(m: Mutation, script: Option<Script>) returns (o: Outcome)
      requires Ready()
      modifies provider
      ensures provider.Valid() && Sound(old(provider.State()), provider.State(), m, o)
      ensures Ends(old(provider.State()), provider.State(), provider.instance, m, script, o)
    {
      hide Sound, Ends;
      match m {
        case EnsurePrincipal(p) => o := Ensure(p, script);
        case CreateJoinCredential(request) => o := Create(request, script);
        case RevokeJoinCredential(c) => o := Revoke(c, script);
        case ReplaceNodeTags(target, tags) => o := ReplaceTags(target, tags, script);
        case ExpireNode(target) => o := Expire(target, script);
        case DeleteNode(target) => o := Delete(target, script);
        case ApplyPolicy(expected, policy) => o := Apply(expected, policy, script);
      }
    }

    ghost predicate Ready()
      reads this, provider
    {
      provider.Valid() && provider.nextFailure == None && AllowsMutation(provider.compatibility)
    }

    /** What a script makes of an applied write before its read-back. */
    static function AfterApply(script: Option<Script>): Option<Outcome> {
      match script
      case Some(AfterApplyReadBackUnavailable) => Some(Ambiguous)
      case Some(AfterApplyReadBackOld) => Some(Failed(true))
      case Some(AfterApplyReadBackConflict) => Some(Conflict)
      case _ => None
    }

    method Ensure(p: string, script: Option<Script>) returns (o: Outcome)
      requires Ready()
      modifies provider
      ensures provider.Valid() && Sound(old(provider.State()), provider.State(), EnsurePrincipal(p), o)
      ensures Ends(old(provider.State()), provider.State(), provider.instance, EnsurePrincipal(p), script, o)
    {
      hide Named, NodeName, Keyed, Active;
      var already := p in provider.principals;
      var checked := provider.CheckMutation();
      match checked { case Err(e) => return OutcomeFromError(e); case Ok(_) => }
      if p == "" { return Rejected; }
      provider.principals := provider.principals + {p};
      if AfterApply(script).Some? { return AfterApply(script).value; }
      if p in provider.principals {
        return if already then AlreadySatisfied(PrincipalPresent(p)) else Confirmed(PrincipalPresent(p));
      }
      return Ambiguous;
    }

    method Create(request: JoinRequest, script: Option<Script>) returns (o: Outcome)
      requires Ready()
      modifies provider
      ensures provider.Valid() && Sound(old(provider.State()), provider.State(), CreateJoinCredential(request), o)
      ensures Ends(old(provider.State()), provider.State(), provider.instance, CreateJoinCredential(request), script, o)
    {
      if request.maxUses != 1 || request.reusable { return Rejected; }
      var created := provider.CreateCredential(request);
      assert created.Ok? ==> created.value in provider.credentials;
      match created { case Err(e) => return OutcomeFromError(e); case Ok(_) => }
      if script.Some? { return Ambiguous; }
      return Confirmed(JoinCredentialIssued(created.value, EXPIRY, 1));
    }

    method Revoke(c: string, script: Option<Script>) returns (o: Outcome)
      requires Ready()
      modifies provider
      ensures provider.Valid() && Sound(old(provider.State()), provider.State(), RevokeJoinCredential(c), o)
      ensures Ends(old(provider.State()), provider.State(), provider.instance, RevokeJoinCredential(c), script, o)
    {
      var parsed := ParseCredentialId(c);
      if parsed.None? { return Rejected; }
      var id := parsed.value;
      if id !in provider.credentials { return Rejected; }
      if !provider.credentials[id] { return AlreadySatisfied(CredentialRevoked(c)); }
      var revoked := provider.RevokeCredential(id);
      match revoked { case Err(e) => return OutcomeFromError(e); case Ok(_) => }
      if AfterApply(script).Some? { return AfterApply(script).value; }
      return Confirmed(CredentialRevoked(c));
    }

    /** Whether the node read back is what the mutation asked for. */
    static predicate Wanted(m: Mutation, node: Option<Node>) {
      match m
      case ReplaceNodeTags(_, tags) => node.Some? && node.value.tags == tags
      case ExpireNode(_) => node.Some? && node.value.expired
      case _ => node.None?
    }

    /** The read-back after a write to a node. It cannot fail outright, since the
     *  read before the write succeeded; so no refusal hides an applied write. */
    method ReadBack(target: Identity, script: Option<Script>, m: Mutation) returns (o: Outcome)
      requires Ready() && target.instance == provider.instance
      requires m.ReplaceNodeTags? || m.ExpireNode? || m.DeleteNode?
      requires m.target == target
      modifies provider`nextFailure
      ensures provider.nextFailure == None
      ensures o.Confirmed? || o.Failed? || o.Conflict? || o.Ambiguous?
      ensures o.Confirmed? ==> Holds(provider.State(), m, o.evidence)
      ensures Wanted(m, provider.Find(target)) ==> ReadBackAs(false, m, script, o)
      ensures !Wanted(m, provider.Find(target)) && AfterApply(script).None? ==> o.Ambiguous?
    {
      if AfterApply(script).Some? { return AfterApply(script).value; }
      var node := provider.GetNode(target);
      match node { case Err(e) => return OutcomeFromError(e); case Ok(_) => }
      if !Wanted(m, node.value) { return Ambiguous; }
      return Confirmed(if node.value.Some? then NodeMatches(node.value.value) else NodeAbsent(target));
    }

    /** Writes a node that was just read, and reads it back: the write is applied, and
     *  answered as scripted. */
    method WriteNode(target: Identity, node: Node, script: Option<Script>, m: Mutation) returns (o: Outcome)
      requires Ready() && target.instance == provider.instance && provider.Find(target).Some?
      requires (m.ReplaceNodeTags? || m.ExpireNode?) && m.target == target
      requires node.identity == target && Wanted(m, Some(node))
      modifies provider
      ensures provider.Valid()
      ensures provider.State() == old(provider.State()).(nodes := old(provider.nodes)[target.nodeId := node])
      ensures ReadBackAs(false, m, script, o)
      ensures o.Confirmed? ==> Holds(provider.State(), m, o.evidence)
    {
      hide Named, NodeName, AfterApply, ReadBackAs;
      var checked := provider.CheckNode(target);
      if checked.Err? {
        // The node was found, on a provider that admits mutations.
        assert false;
      }
      NamedStill(provider.nodes, provider.nextNode, target.nodeId, node);
      provider.nodes := provider.nodes[target.nodeId := node];
      o := ReadBack(target, script, m);
    }

    method ReplaceTags(target: Identity, tags: set<string>, script: Option<Script>) returns (o: Outcome)
      requires Ready()
      modifies provider
      ensures provider.Valid() && Sound(old(provider.State()), provider.State(), ReplaceNodeTags(target, tags), o)
      ensures Ends(old(provider.State()), provider.State(), provider.instance, ReplaceNodeTags(target, tags), script, o)
    {
      hide Sound, Ends, AfterApply, ReadBackAs, TagsOk, Keyed, Named;
      ghost var i := provider.State();
      var m := ReplaceNodeTags(target, tags);
      if !TagsOk(tags) { Unchanged(i, provider.instance, m, script, Rejected); return Rejected; }
      var before := provider.GetNode(target);
      if before.Err? {
        Unchanged(i, provider.instance, m, script, OutcomeFromError(before.error));
        return OutcomeFromError(before.error);
      }
      if before.value.None? { Unchanged(i, provider.instance, m, script, Rejected); return Rejected; }
      if before.value.value.tags == tags {
        Unchanged(i, provider.instance, m, script, AlreadySatisfied(NodeMatches(before.value.value)));
        return AlreadySatisfied(NodeMatches(before.value.value));
      }
      o := WriteNode(target, before.value.value.(tags := tags), script, m);
      NodeWritten(i, provider.State(), provider.instance, m, script, o);
    }

    method Expire(target: Identity, script: Option<Script>) returns (o: Outcome)
      requires Ready()
      modifies provider
      ensures provider.Valid() && Sound(old(provider.State()), provider.State(), ExpireNode(target), o)
      ensures Ends(old(provider.State()), provider.State(), provider.instance, ExpireNode(target), script, o)
    {
      hide Sound, Ends, AfterApply, ReadBackAs, Keyed, Named;
      ghost var i := provider.State();
      var m := ExpireNode(target);
      var before := provider.GetNode(target);
      if before.Err? {
        Unchanged(i, provider.instance, m, script, OutcomeFromError(before.error));
        return OutcomeFromError(before.error);
      }
      if before.value.None? { Unchanged(i, provider.instance, m, script, Rejected); return Rejected; }
      if before.value.value.expired {
        Unchanged(i, provider.instance, m, script, AlreadySatisfied(NodeMatches(before.value.value)));
        return AlreadySatisfied(NodeMatches(before.value.value));
      }
      o := WriteNode(target, before.value.value.(expired := true), script, m);
      NodeWritten(i, provider.State(), provider.instance, m, script, o);
    }

    method Delete(target: Identity, script: Option<Script>) returns (o: Outcome)
      requires Ready()
      modifies provider
      ensures provider.Valid() && Sound(old(provider.State()), provider.State(), DeleteNode(target), o)
      ensures Ends(old(provider.State()), provider.State(), provider.instance, DeleteNode(target), script, o)
    {
      hide Sound, Ends, AfterApply, ReadBackAs, Named;
      ghost var i := provider.State();
      var m := DeleteNode(target);
      var before := provider.GetNode(target);
      if before.Err? {
        Unchanged(i, provider.instance, m, script, OutcomeFromError(before.error));
        return OutcomeFromError(before.error);
      }
      if before.value.None? {
        Unchanged(i, provider.instance, m, script, AlreadySatisfied(NodeAbsent(target)));
        return AlreadySatisfied(NodeAbsent(target));
      }
      if before.value.value.identity != target {
        // This would be a conflict; but what is found has the identity looked for.
        assert false;
      }
      var checked := provider.CheckNode(target);
      if checked.Err? {
        // The node was found, on a provider that admits mutations.
        assert false;
      }
      NamedStill(provider.nodes, provider.nextNode, target.nodeId, before.value.value);
      provider.nodes := provider.nodes - {target.nodeId};
      o := ReadBack(target, script, m);
      NodeWritten(i, provider.State(), provider.instance, m, script, o);
    }

    method Apply(expected: string, policy: string, script: Option<Script>) returns (o: Outcome)
      requires Ready()
      modifies provider
      ensures provider.Valid() && Sound(old(provider.State()), provider.State(), ApplyPolicy(expected, policy), o)
      ensures Ends(old(provider.State()), provider.State(), provider.instance, ApplyPolicy(expected, policy), script, o)
    {
      var revision := PolicyRevision(provider.policyDocument);
      if revision != expected { return Conflict; }
      if provider.policyDocument == policy { return AlreadySatisfied(PolicyMatches(revision)); }
      provider.policyDocument := policy;
      match script {
        case Some(AfterApplyReadBackUnavailable) => return Ambiguous;
        case Some(AfterApplyReadBackOld) => return Ambiguous;
        case Some(AfterApplyReadBackConflict) => return Ambiguous;
        case _ => return Confirmed(PolicyMatches(PolicyRevision(provider.policyDocument)));
      }
    }
  }
}
