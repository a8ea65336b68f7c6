/** The admission controller's token buckets, as values.
 *
 *  Instants and durations count nanoseconds. `Admit` says what one request does to
 *  the controller; the class in AdmissionController.dfy performs it in place. A
 *  full table drops one stale source, whichever its hash table meets first, so the
 *  dropped source is an argument.
 */
module Admission {
  import opened Options
  import opened Arithmetic

  type Instant = nat

  const U32_MAX: nat := 0xffff_ffff
  const MILLISECOND: nat := 1_000_000
  const SECOND: nat := 1_000_000_000

  function Min(a: int, b: int): int { if a <= b then a else b }
  function Max(a: int, b: int): int { if a <= b then b else a }

  /** `saturating_duration_since`. */
  function Since(now: Instant, earlier: Instant): nat { Max(now - earlier, 0) }

  // ------------------------------------------------------------------ limits

  datatype Limits = Limits(
    sourceBurst: nat,
    globalBurst: nat,
    sourceInterval: nat,
    globalInterval: nat,
    maximumSources: nat,
    sourceInitial: nat,
    globalInitial: nat)

  predicate IntervalOk(i: nat) { 10 * MILLISECOND <= i <= 3600 * SECOND }

  /** The hard ranges `AdmissionLimits::bounded` and `with_initial_tokens` enforce. */
  predicate LimitsOk(l: Limits) {
    && 1 <= l.sourceBurst <= 64 && 1 <= l.globalBurst <= 1024 && 1 <= l.maximumSources <= 65_536
    && IntervalOk(l.sourceInterval) && IntervalOk(l.globalInterval)
    && 1 <= l.sourceInitial <= l.sourceBurst && 1 <= l.globalInitial <= l.globalBurst
  }

  // ----------------------------------------------------------------- buckets

  datatype Bucket = Bucket(tokens: nat, burst: nat, interval: nat, last: Instant)

  predicate BucketOk(b: Bucket) { b.tokens <= b.burst <= 1024 && IntervalOk(b.interval) }

  datatype Decision = Allowed | Limited(retryAfter: nat)

  function Intervals(b: Bucket, now: Instant): nat
    requires b.interval > 0
  {
    Since(now, b.last) / b.interval
  }

  /** Whole intervals become tokens; both the tokens added and the advance of the
   *  phase are capped at 32 bits. */
  function Refill(b: Bucket, now: Instant): (r: Bucket)
    requires BucketOk(b)
    ensures BucketOk(r) && r.burst == b.burst && r.interval == b.interval
  {
    var intervals := Intervals(b, now);
    if intervals == 0 then b
    else
      var added := Min(intervals, U32_MAX);
      b.(tokens := Min(Min(b.tokens + added, U32_MAX), b.burst), last := b.last + b.interval * added)
  }

  /** The decision a refilled bucket gives. */
  function Availability(b: Bucket, now: Instant): Decision
    requires BucketOk(b)
  {
    if b.tokens > 0 then Allowed
    else Limited(Max(Max(b.interval - Since(now, b.last), 0), MILLISECOND))
  }

  function Debit(b: Bucket): Bucket
    requires b.tokens > 0
  {
    b.(tokens := b.tokens - 1)
  }

  // -------------------------------------------------------------- controller

  /** An IPv4 address as 32 bits, an IPv6 address as 128 bits. */
  datatype IpAddr = V4(bits: nat) | V6(bits: nat)

  const V4_SPAN: nat := 0x1_0000_0000

  predicate IpOk(a: IpAddr) {
    match a
    case V4(bits) => bits < V4_SPAN
    case V6(bits) => bits < V4_SPAN * V4_SPAN * V4_SPAN * V4_SPAN
  }

  /** IPv4-mapped IPv6 addresses share the bucket of their IPv4 address. */
  function NormalizeIp(a: IpAddr): IpAddr {
    if a.V6? && a.bits / V4_SPAN == 0xffff then V4(a.bits % V4_SPAN) else a
  }

  datatype SourceBucket = SourceBucket(bucket: Bucket, lastSeen: Instant)

  datatype Controller = Controller(
    limits: Limits,
    start: Instant,
    global: Bucket,
    overflow: Bucket,
    sources: map<IpAddr, SourceBucket>)

  function NewController(limits: Limits, now: Instant): Controller {
    Controller(limits, now,
               Bucket(limits.globalInitial, limits.globalBurst, limits.globalInterval, now),
               Bucket(1, limits.sourceBurst, limits.sourceInterval, now),
               map[])
  }

  predicate ControllerOk(c: Controller) {
    && LimitsOk(c.limits)
    && BucketOk(c.global) && c.global.burst == c.limits.globalBurst && c.global.interval == c.limits.globalInterval
    && BucketOk(c.overflow) && SourceShaped(c.limits, c.overflow)
    && (forall ip :: ip in c.sources ==> SourceShaped(c.limits, c.sources[ip].bucket))
    && |c.sources| <= c.limits.maximumSources
  }

  predicate SourceShaped(l: Limits, b: Bucket) {
    BucketOk(b) && b.burst == l.sourceBurst && b.interval == l.sourceInterval
  }

  predicate Full(c: Controller, ip: IpAddr) {
    ip !in c.sources && |c.sources| >= c.limits.maximumSources
  }

  predicate Stale(c: Controller, ip: IpAddr, now: Instant) {
    ip in c.sources && Since(now, c.sources[ip].lastSeen) >= c.limits.sourceInterval * c.limits.sourceBurst
  }

  /** What the search for a stale source may return. */
  predicate MayEvict(c: Controller, ip: IpAddr, now: Instant, evicted: Option<IpAddr>) {
    if now < c.start || !Full(c, ip) then evicted == None
    else if evicted.Some? then Stale(c, evicted.value, now)
    else forall k :: k in c.sources ==> !Stale(c, k, now)
  }

  function Evict(c: Controller, evicted: Option<IpAddr>): Controller {
    match evicted
    case None => c
    case Some(k) => c.(sources := c.sources - {k})
  }

  /** Which bucket answers for a source. */
  datatype Selected = Tracked | Overflow | New

  function Select(c: Controller, ip: IpAddr): Selected {
    if ip in c.sources then Tracked
    else if |c.sources| >= c.limits.maximumSources then Overflow
    else New
  }

  /** The selected bucket, refilled. */
  function SourceBucketFor(c: Controller, ip: IpAddr, now: Instant): (b: Bucket)
    requires ControllerOk(c)
    ensures SourceShaped(c.limits, b)
  {
    match Select(c, ip)
    case Tracked => Refill(c.sources[ip].bucket, now)
    case Overflow => Refill(c.overflow, now)
    case New => Bucket(c.limits.sourceInitial, c.limits.sourceBurst, c.limits.sourceInterval, now)
  }

  /** Refilling a bucket at the instant of its creation changes nothing. */
  lemma FreshBucketKeepsTokens(l: Limits, now: Instant)
    requires LimitsOk(l)
    ensures var b := Bucket(l.sourceInitial, l.sourceBurst, l.sourceInterval, now);
            SourceShaped(l, b) && Refill(b, now) == b
  {
    DivUnique(0, l.sourceInterval, 0);
    assert Intervals(Bucket(l.sourceInitial, l.sourceBurst, l.sourceInterval, now), now) == 0;
  }

  /** Writes a bucket back. A new source is only stored once it is admitted. */
  function Store(c: Controller, ip: IpAddr, now: Instant, b: Bucket, admitted: bool): Controller {
    match Select(c, ip)
    case Tracked => c.(sources := c.sources[ip := SourceBucket(b, Max(c.sources[ip].lastSeen, now))])
    case Overflow => c.(overflow := b)
    case New => if admitted then c.(sources := c.sources[ip := SourceBucket(b, now)]) else c
  }

  /** One request from a normalized source: the source's bucket decides first, then
   *  the global one; only when both have a token is each debited. */
  function Admit(c: Controller, ip: IpAddr, now: Instant, evicted: Option<IpAddr>): (Controller, Decision)
    requires ControllerOk(c)
    requires MayEvict(c, ip, now, evicted)
  {
    if now < c.start then (c, Limited(c.limits.globalInterval))
    else
      var e := Evict(c, evicted);
      EvictOk(c, evicted);
      var b := SourceBucketFor(e, ip, now);
      if Availability(b, now).Limited? then (Store(e, ip, now, b, false), Availability(b, now))
      else
        var g := Refill(e.global, now);
        if Availability(g, now).Limited?
        then (Store(e, ip, now, b, false).(global := g), Availability(g, now))
        else (Store(e, ip, now, Debit(b), true).(global := Debit(g)), Allowed)
  }

  lemma EvictOk(c: Controller, evicted: Option<IpAddr>)
    requires ControllerOk(c)
    ensures ControllerOk(Evict(c, evicted))
    ensures evicted.Some? && evicted.value in c.sources ==> |Evict(c, evicted).sources| == |c.sources| - 1
  {
    if evicted.Some? && evicted.value in c.sources {
      assert c.sources.Keys == (c.sources - {evicted.value}).Keys + {evicted.value};
    } else if evicted.Some? {
      assert c.sources - {evicted.value} == c.sources;
    }
  }

  lemma StoreOk(c: Controller, ip: IpAddr, now: Instant, b: Bucket, admitted: bool)
    requires ControllerOk(c) && SourceShaped(c.limits, b)
    ensures ControllerOk(Store(c, ip, now, b, admitted))
  {
    var d := Store(c, ip, now, b, admitted);
    if d.sources != c.sources { assert d.sources.Keys == c.sources.Keys + {ip}; }
  }

  lemma GlobalOk(c: Controller, now: Instant)
    requires ControllerOk(c)
    ensures var g := Refill(c.global, now);
            ControllerOk(c.(global := g)) && (g.tokens > 0 ==> ControllerOk(c.(global := Debit(g))))
  {
  }

  lemma StoreKeepsRest(c: Controller, ip: IpAddr, now: Instant, b: Bucket, admitted: bool)
    ensures var d := Store(c, ip, now, b, admitted);
            d.limits == c.limits && d.start == c.start && d.global == c.global
  {
  }

  /** Tokens stay within the burst, and tracked sources within their maximum,
   *  whatever the clock shows. */
  lemma AdmitKeeps(c: Controller, ip: IpAddr, now: Instant, evicted: Option<IpAddr>)
    requires ControllerOk(c) && MayEvict(c, ip, now, evicted)
    ensures ControllerOk(Admit(c, ip, now, evicted).0)
    ensures Admit(c, ip, now, evicted).0.limits == c.limits && Admit(c, ip, now, evicted).0.start == c.start
  {
    hide ControllerOk, Store, Refill, SourceBucketFor, MayEvict;
    EvictOk(c, evicted);
    if now >= c.start {
      var e := Evict(c, evicted);
      var b := SourceBucketFor(e, ip, now);
      var kept := Store(e, ip, now, b, false);
      StoreOk(e, ip, now, b, false);
      StoreKeepsRest(e, ip, now, b, false);
      GlobalOk(kept, now);
      if b.tokens > 0 {
        StoreOk(e, ip, now, Debit(b), true);
        StoreKeepsRest(e, ip, now, Debit(b), true);
        GlobalOk(Store(e, ip, now, Debit(b), true), now);
      }
    }
  }

  /** Two addresses share a bucket exactly when they are the same address, or one
   *  is the IPv4-mapped form of the other. */
  lemma SharedBucket(a: IpAddr, b: IpAddr)
    requires IpOk(a) && IpOk(b)
    ensures NormalizeIp(a) == NormalizeIp(b) <==>
            || a == b
            || (a.V4? && b == V6(0xffff_0000_0000 + a.bits))
            || (b.V4? && a == V6(0xffff_0000_0000 + b.bits))
    ensures NormalizeIp(NormalizeIp(a)) == NormalizeIp(a)
  {
  }
}
