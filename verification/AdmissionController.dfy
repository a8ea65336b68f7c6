/** The controller that updates its buckets and its table in place. */
module AdmissionController {
  import opened Options
  import opened Admission

  class InMemoryAdmissionController {
    const limits: Limits
    const initializedAt: Instant
    var global: Bucket
    var overflow: Bucket
    var sources: map<IpAddr, SourceBucket>

    function State(): Controller
      reads this
    {
      Controller(limits, initializedAt, global, overflow, sources)
    }

    constructor (limits: Limits, now: Instant)
      requires LimitsOk(limits)
      ensures State() == NewController(limits, now) && ControllerOk(State())
    {
      this.limits, initializedAt := limits, now;
      global := Bucket(limits.globalInitial, limits.globalBurst, limits.globalInterval, now);
      overflow := Bucket(1, limits.sourceBurst, limits.sourceInterval, now);
      sources := map[];
    }

    /** Walks the table in whatever order its hashing gives until a source is stale. */
    method FindStale(now: Instant) returns (stale: Option<IpAddr>)
      requires ControllerOk(State())
      ensures if stale.Some? then Stale(State(), stale.value, now)
              else forall k :: k in sources ==> !Stale(State(), k, now)
    {
      var staleAfter := limits.sourceInterval * limits.sourceBurst;
      var rest := sources.Keys;
      while rest != {}
        invariant rest <= sources.Keys
        invariant forall k :: k in sources && k !in rest ==> !Stale(State(), k, now)
        decreases |rest|
      {
        var k :| k in rest;
        if Since(now, sources[k].lastSeen) >= staleAfter { return Some(k); }
        rest := rest - {k};
      }
      return None;
    }

    /** `availability` of the source's bucket: a tracked or the overflow bucket is
     *  refilled in place, a new one is not stored yet. */
    method RefillSelected(selected: Selected, source: IpAddr, now: Instant) returns (bucket: Bucket)
      requires ControllerOk(State()) && selected == Select(State(), source)
      modifies this`overflow, this`sources
      ensures bucket == SourceBucketFor(old(State()), source, now)
      ensures State() == Store(old(State()), source, now, bucket, false)
    {
      FreshBucketKeepsTokens(limits, now);
      hide Refill;
      match selected {
        case Tracked =>
          var entry := sources[source];
          bucket := Refill(entry.bucket, now);
          sources := sources[source := SourceBucket(bucket, Max(entry.lastSeen, now))];
        case Overflow =>
          overflow := Refill(overflow, now);
          bucket := overflow;
        case New =>
          bucket := Refill(Bucket(limits.sourceInitial, limits.sourceBurst, limits.sourceInterval, now), now);
      }
    }

    method DebitSelected(selected: Selected, source: IpAddr, now: Instant, bucket: Bucket, ghost e: Controller)
      requires selected == Select(e, source) && bucket.tokens > 0
      requires State() == Store(e, source, now, bucket, false).(global := global)
      modifies this`overflow, this`sources
      ensures State() == Store(e, source, now, Debit(bucket), true).(global := global)
    {
      match selected {
        case Tracked =>
          var entry := sources[source];
          sources := sources[source := entry.(bucket := Debit(entry.bucket))];
          assert sources == e.sources[source := sources[source]];
        case Overflow => overflow := Debit(overflow);
        case New => sources := sources[source := SourceBucket(Debit(bucket), now)];
      }
    }

    /** One request; `evicted` reports which stale source made room, if one did. */
    method Admit(peer: IpAddr, now: Instant) returns (decision: Decision, evicted: Option<IpAddr>)
      requires ControllerOk(State())
      modifies this
      ensures MayEvict(old(State()), NormalizeIp(peer), now, evicted)
      ensures (State(), decision) == Admission.Admit(old(State()), NormalizeIp(peer), now, evicted)
      ensures ControllerOk(State())
    {
      evicted := None;
      if now < initializedAt { return Limited(limits.globalInterval), None; }
      var source := NormalizeIp(peer);
      if source !in sources && |sources| >= limits.maximumSources {
        evicted := FindStale(now);
        if evicted.Some? { sources := sources - {evicted.value}; }
      }
      ghost var before := old(State());
      ghost var e := State();
      assert e == Evict(before, evicted);
      EvictOk(before, evicted);
      AdmitKeeps(before, source, now, evicted);
      hide Store, SourceBucketFor, ControllerOk, MayEvict;
      decision := AdmitInto(source, now);
    }

    /** The buckets' part of a request, once a stale source has made room. */
    method AdmitInto(source: IpAddr, now: Instant) returns (decision: Decision)
      requires ControllerOk(State())
      modifies this
      ensures var e := old(State());
              var b := SourceBucketFor(e, source, now);
              var g := Refill(e.global, now);
              (State(), decision) ==
              if Availability(b, now).Limited? then (Store(e, source, now, b, false), Availability(b, now))
              else if Availability(g, now).Limited?
              then (Store(e, source, now, b, false).(global := g), Availability(g, now))
              else (Store(e, source, now, Debit(b), true).(global := Debit(g)), Allowed)
    {
      ghost var e := State();
      var selected := Select(State(), source);
      var bucket := RefillSelected(selected, source, now);
      decision := Availability(bucket, now);
      StoreKeepsRest(e, source, now, bucket, false);
      if decision.Limited? { return; }
      hide Store, SourceBucketFor;
      global := Refill(global, now);
      decision := Availability(global, now);
      if decision.Limited? { return; }
      DebitSelected(selected, source, now, bucket, e);
      global := Debit(global);
    }
  }
}
