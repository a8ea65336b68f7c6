/** What the buckets guarantee over whole runs of requests. */
module AdmissionBounds {
  import opened Options
  import opened Admission
  import opened Arithmetic

  // ------------------------------------------------------------------ refill

  /** A refill that is not capped leaves less than one interval behind. */
  lemma UncappedPhase(b: Bucket, now: Instant)
    requires BucketOk(b) && b.last <= now && Intervals(b, now) <= U32_MAX
    ensures var r := Refill(b, now);
            && r.last == b.last + Intervals(b, now) * b.interval
            && r.last <= now < r.last + b.interval && Intervals(r, now) == 0
            && r.tokens == Min(b.tokens + Intervals(b, now), b.burst)
  {
    DivBounds(now - b.last, b.interval);
    DivUnique(now - Refill(b, now).last, b.interval, 0);
  }

  lemma Distribute(i: int, m: int, k: int)
    ensures i * (m - k) == i * m - k * i
  {
  }

  /** A refill takes its whole intervals out of the time that is left. */
  lemma IntervalsLeft(b: Bucket, t1: Instant, t2: Instant)
    requires BucketOk(b) && b.last <= t1 <= t2 && Intervals(b, t2) <= U32_MAX
    ensures Intervals(b, t1) <= Intervals(b, t2)
    ensures Intervals(Refill(b, t1), t2) == Intervals(b, t2) - Intervals(b, t1)
  {
    DivMonotone(t1 - b.last, t2 - b.last, b.interval);
    UncappedPhase(b, t1);
    var k := Intervals(b, t1);
    DivShift(t2 - b.last - k * b.interval, b.interval, k);
  }

  lemma RefillTwice(b: Bucket, t1: Instant, t2: Instant)
    requires BucketOk(b) && t1 <= t2 && Intervals(b, t2) <= U32_MAX
    ensures Refill(Refill(b, t1), t2) == Refill(b, t2)
  {
    if b.last <= t1 {
      IntervalsLeft(b, t1, t2);
      UncappedPhase(b, t1);
      Distribute(b.interval, Intervals(b, t2), Intervals(b, t1));
      hide Intervals;
    } else {
      DivUnique(0, b.interval, 0);
    }
  }

  function RefillAll(b: Bucket, times: seq<Instant>): (r: Bucket)
    requires BucketOk(b)
    ensures BucketOk(r)
    decreases |times|
  {
    if times == [] then b else RefillAll(Refill(b, times[0]), times[1..])
  }

  /** Refilling at any increasing series of times gives the tokens and the phase of
   *  one refill at the last. */
  lemma {:induction false} RefillPathIndependent(b: Bucket, times: seq<Instant>)
    requires BucketOk(b) && times != [] && forall i, j :: 0 <= i < j < |times| ==> times[i] <= times[j]
    requires Intervals(b, times[|times| - 1]) <= U32_MAX
    ensures RefillAll(b, times) == Refill(b, times[|times| - 1])
    decreases |times|
  {
    if |times| == 1 {
      assert RefillAll(Refill(b, times[0]), times[1..]) == Refill(b, times[0]);
    } else {
      var last := times[|times| - 1];
      RefillTwice(b, times[0], last);
      IntervalsShrink(b, times[0], last);
      RefillPathIndependent(Refill(b, times[0]), times[1..]);
    }
  }

  lemma IntervalsShrink(b: Bucket, t1: Instant, t2: Instant)
    requires BucketOk(b)
    ensures Intervals(Refill(b, t1), t2) <= Intervals(b, t2)
  {
    DivMonotone(Since(t2, Refill(b, t1).last), Since(t2, b.last), b.interval);
  }

  /** Refilling again at the same instant changes nothing exactly when the first
   *  refill was not capped at 32 bits. */
  lemma RefillIdempotentExactly(b: Bucket, now: Instant)
    requires BucketOk(b)
    ensures Refill(Refill(b, now), now) == Refill(b, now) <==> Intervals(b, now) <= 0xffff_ffff
  {
    if Intervals(b, now) <= U32_MAX {
      RefillTwice(b, now, now);
    } else {
      var r := Refill(b, now);
      DivBounds(now - b.last, b.interval);
      assert (U32_MAX + 1) * b.interval <= Intervals(b, now) * b.interval;
      assert now - r.last >= b.interval;
      DivMonotone(b.interval, now - r.last, b.interval);
      DivUnique(b.interval, b.interval, 1);
    }
  }

  predicate AvailableAt(b: Bucket, t: Instant)
    requires BucketOk(b)
  {
    Availability(Refill(b, t), t).Allowed?
  }

  /** After a limited answer the bucket has a token at an instant, however the clock
   *  gets there, exactly from one interval after its phase on. Waiting the returned
   *  `retry_after` reaches that point exactly when the clock had not stepped back
   *  behind the phase, and a shorter wait does so only below the millisecond floor. */
  lemma RetryAfterExact(b: Bucket, now: Instant, t: Instant, wait: nat)
    requires BucketOk(b) && b.burst >= 1
    requires Availability(Refill(b, now), now).Limited?
    ensures var r := Refill(b, now);
            var retry := Availability(r, now).retryAfter;
            && (AvailableAt(r, t) <==> r.last + r.interval <= t)
            && (AvailableAt(r, now + retry) <==> r.last <= now)
            && (r.last <= now && wait < retry && AvailableAt(r, now + wait) ==> retry == MILLISECOND)
  {
    var r := Refill(b, now);
    var retry := Availability(r, now).retryAfter;
    EmptyUntil(r, t);
    EmptyUntil(r, now + retry);
    EmptyUntil(r, now + wait);
  }

  lemma EmptyUntil(r: Bucket, t: Instant)
    requires BucketOk(r) && r.burst >= 1 && r.tokens == 0
    ensures AvailableAt(r, t) <==> r.last + r.interval <= t
  {
    if r.last + r.interval <= t {
      DivMonotone(r.interval, t - r.last, r.interval);
      DivUnique(r.interval, r.interval, 1);
    } else {
      DivUnique(Since(t, r.last), r.interval, 0);
    }
  }

  // -------------------------------------------------------------------- runs

  /** One request from a normalized source. */
  datatype Request = Request(ip: IpAddr, now: Instant, evicted: Option<IpAddr>)

  /** An admission, and whether the overflow bucket paid for it. */
  datatype Grant = Grant(ip: IpAddr, at: Instant, overflow: bool)

  datatype Watch = Watch(controller: Controller, log: seq<Grant>)

  function Begin(limits: Limits, start: Instant): Watch { Watch(NewController(limits, start), []) }

  /** A request naming a source that the search could not drop does nothing. */
  function Step(w: Watch, r: Request): Watch {
    var c := w.controller;
    if !ControllerOk(c) || !MayEvict(c, r.ip, r.now, r.evicted) then w
    else
      var (d, decision) := Admit(c, r.ip, r.now, r.evicted);
      if decision.Limited? then Watch(d, w.log)
      else Watch(d, w.log + [Grant(r.ip, r.now, Select(Evict(c, r.evicted), r.ip).Overflow?)])
  }

  function Run(w: Watch, rs: seq<Request>): Watch {
    if rs == [] then w else Step(Run(w, rs[..|rs| - 1]), rs[|rs| - 1])
  }

  function Overflowed(log: seq<Grant>): nat {
    if log == [] then 0
    else Overflowed(log[..|log| - 1]) + (if log[|log| - 1].overflow then 1 else 0)
  }

  /** Admissions of a source through its own bucket at or after `t0`, up to `t1`. */
  function Own(log: seq<Grant>, ip: IpAddr, t0: Instant, t1: Instant): nat {
    if log == [] then 0
    else
      var g := log[|log| - 1];
      Own(log[..|log| - 1], ip, t0, t1) +
      (if g.ip == ip && !g.overflow && t0 <= g.at <= t1 then 1 else 0)
  }

  predicate Monotone(rs: seq<Request>) {
    forall i, j :: 0 <= i < j < |rs| ==> rs[i].now <= rs[j].now
  }

  /** Every clock reading is at most `span` after the start. */
  predicate Within(rs: seq<Request>, start: Instant, span: nat) {
    forall i :: 0 <= i < |rs| ==> rs[i].now <= start + span
  }

  // ------------------------------------------------------------ conservation

  /** What a bucket paid out and still holds never exceeds what it was given. */
  predicate Conserved(paid: nat, initial: nat, start: Instant, b: Bucket) {
    && BucketOk(b) && start <= b.last
    && paid + b.tokens <= initial + (b.last - start) / b.interval
  }

  lemma RefillConserves(paid: nat, initial: nat, start: Instant, b: Bucket, now: Instant)
    requires Conserved(paid, initial, start, b)
    ensures Conserved(paid, initial, start, Refill(b, now))
    ensures Refill(b, now).last <= Max(b.last, now)
  {
    hide Refill;
    var k := Min(Intervals(b, now), U32_MAX);
    DivShift(b.last - start, b.interval, k);
    RefillPhase(b, now);
    RefillTokens(b, now);
  }

  lemma RefillPhase(b: Bucket, now: Instant)
    requires BucketOk(b)
    ensures Refill(b, now).last == b.last + Min(Intervals(b, now), U32_MAX) * b.interval
    ensures Refill(b, now).last <= Max(b.last, now)
  {
    var n := Intervals(b, now);
    DivBounds(Since(now, b.last), b.interval);
    MulMonotone(b.interval, Min(n, U32_MAX), n);
  }

  lemma RefillTokens(b: Bucket, now: Instant)
    requires BucketOk(b)
    ensures Refill(b, now).tokens <= b.tokens + Min(Intervals(b, now), U32_MAX)
  {
  }

  ghost predicate Balanced(w: Watch, limits: Limits, start: Instant) {
    var c := w.controller;
    && ControllerOk(c) && c.limits == limits && c.start == start
    && Conserved(|w.log|, limits.globalInitial, start, c.global)
    && Conserved(Overflowed(w.log), 1, start, c.overflow)
  }

  /** One request on the two shared buckets. */
  lemma SharedBuckets(c: Controller, ip: IpAddr, now: Instant, evicted: Option<IpAddr>)
    requires ControllerOk(c) && MayEvict(c, ip, now, evicted)
    ensures var (d, decision) := Admit(c, ip, now, evicted);
            var overflow := Select(Evict(c, evicted), ip).Overflow?;
            && (decision.Limited? ==>
                  && (d.global == c.global || d.global == Refill(c.global, now))
                  && (d.overflow == c.overflow || d.overflow == Refill(c.overflow, now)))
            && (decision.Allowed? ==>
                  && Refill(c.global, now).tokens > 0 && d.global == Debit(Refill(c.global, now))
                  && (if overflow
                      then Refill(c.overflow, now).tokens > 0 && d.overflow == Debit(Refill(c.overflow, now))
                      else d.overflow == c.overflow))
  {
    hide ControllerOk, MayEvict, Refill, Stale;
    EvictOk(c, evicted);
  }

  /** From the start on, a request is admitted exactly when the bucket of its source
   *  and the global one both have a token; a limited one is told how long the first
   *  of them without a token takes. A source that finds room is always new enough to
   *  have one. */
  lemma AdmittedExactly(c: Controller, ip: IpAddr, now: Instant, evicted: Option<IpAddr>)
    requires ControllerOk(c) && MayEvict(c, ip, now, evicted)
    ensures
      var decision := Admit(c, ip, now, evicted).1;
      var room := ip !in c.sources && (|c.sources| < c.limits.maximumSources || evicted.Some?);
      var own := if ip in c.sources then Refill(c.sources[ip].bucket, now) else Refill(c.overflow, now);
      var global := Refill(c.global, now);
      && (decision.Allowed? <==> c.start <= now && (room || own.tokens > 0) && global.tokens > 0)
      && (c.start <= now && decision.Limited? ==>
            decision == Availability(if room || own.tokens > 0 then global else own, now))
  {
    hide Refill;
    EvictOk(c, evicted);
    if c.start <= now { RoomAfterEviction(c, ip, now, evicted); }
    FreshTokens(c);
    hide ControllerOk, MayEvict;
  }

  lemma FreshTokens(c: Controller)
    requires ControllerOk(c)
    ensures c.limits.sourceInitial > 0
  {
  }

  lemma RoomAfterEviction(c: Controller, ip: IpAddr, now: Instant, evicted: Option<IpAddr>)
    requires ControllerOk(c) && MayEvict(c, ip, now, evicted) && c.start <= now
    ensures var e := Evict(c, evicted);
            match Select(e, ip)
            case Tracked => ip in c.sources && e.sources[ip] == c.sources[ip]
            case New => ip !in c.sources && (|c.sources| < c.limits.maximumSources || evicted.Some?)
            case Overflow => ip !in c.sources && |c.sources| >= c.limits.maximumSources && evicted.None?
  {
    EvictOk(c, evicted);
  }

  lemma DebitConserves(paid: nat, initial: nat, start: Instant, b: Bucket)
    requires Conserved(paid, initial, start, b) && b.tokens > 0
    ensures Conserved(paid + 1, initial, start, Debit(b))
  {
  }

  lemma OverflowedSnoc(log: seq<Grant>, g: Grant)
    ensures Overflowed(log + [g]) == Overflowed(log) + (if g.overflow then 1 else 0)
  {
    assert (log + [g])[..|log|] == log;
  }

  lemma StepBalanced(w: Watch, r: Request, limits: Limits, start: Instant)
    requires Balanced(w, limits, start)
    ensures Balanced(Step(w, r), limits, start)
    ensures Step(w, r).controller.global.last <= Max(w.controller.global.last, r.now)
  {
    var c := w.controller;
    if MayEvict(c, r.ip, r.now, r.evicted) {
      SharedBuckets(c, r.ip, r.now, r.evicted);
      AdmitKeeps(c, r.ip, r.now, r.evicted);
      RefillConserves(|w.log|, limits.globalInitial, start, c.global, r.now);
      RefillConserves(Overflowed(w.log), 1, start, c.overflow, r.now);
      OverflowedSnoc(w.log, Grant(r.ip, r.now, Select(Evict(c, r.evicted), r.ip).Overflow?));
      hide ControllerOk, MayEvict, Refill, Admit, Overflowed, Select, Evict, Conserved;
      var global, overflow := Refill(c.global, r.now), Refill(c.overflow, r.now);
      if global.tokens > 0 { DebitConserves(|w.log|, limits.globalInitial, start, global); }
      if overflow.tokens > 0 { DebitConserves(Overflowed(w.log), 1, start, overflow); }
    }
  }

  lemma BeginBalanced(limits: Limits, start: Instant)
    requires LimitsOk(limits)
    ensures Balanced(Begin(limits, start), limits, start)
  {
    DivUnique(0, limits.globalInterval, 0);
    DivUnique(0, limits.sourceInterval, 0);
  }

  lemma {:induction false} RunBalanced(limits: Limits, start: Instant, rs: seq<Request>)
    requires LimitsOk(limits)
    ensures Balanced(Run(Begin(limits, start), rs), limits, start)
  {
    hide Balanced, LimitsOk, Step;
    if rs == [] {
      BeginBalanced(limits, start);
    } else {
      var before := rs[..|rs| - 1];
      RunBalanced(limits, start, before);
      StepBalanced(Run(Begin(limits, start), before), rs[|rs| - 1], limits, start);
    }
  }

  ghost predicate NonePasses(rs: seq<Request>, until: Instant) { forall i :: 0 <= i < |rs| ==> rs[i].now <= until }

  lemma NonePassesBefore(rs: seq<Request>, until: Instant)
    requires rs != [] && NonePasses(rs, until)
    ensures NonePasses(rs[..|rs| - 1], until) && rs[|rs| - 1].now <= until
  {
  }

  /** The phase of the global bucket is never ahead of the readings. */
  lemma {:induction false} PhaseNotAhead(limits: Limits, start: Instant, rs: seq<Request>, until: Instant)
    requires LimitsOk(limits) && start <= until && NonePasses(rs, until)
    ensures Run(Begin(limits, start), rs).controller.global.last <= until
  {
    if rs != [] {
      var before := rs[..|rs| - 1];
      NonePassesBefore(rs, until);
      hide Balanced, LimitsOk, Step, NonePasses;
      PhaseNotAhead(limits, start, before, until);
      RunBalanced(limits, start, before);
      StepBalanced(Run(Begin(limits, start), before), rs[|rs| - 1], limits, start);
    }
  }

  /** What the time up to `until` has paid for. */
  lemma PaidFor(w: Watch, limits: Limits, start: Instant, until: Instant)
    requires LimitsOk(limits) && Balanced(w, limits, start) && w.controller.global.last <= until
    ensures |w.log| <= limits.globalInitial + (until - start) / limits.globalInterval
  {
    DivMonotone(w.controller.global.last - start, until - start, limits.globalInterval);
  }

  /** On any clock, even one that steps back: all admissions and the tokens of the
   *  global bucket stay within its initial tokens and the intervals its phase has
   *  passed, and so for the overflow bucket; no bucket exceeds its burst, nor the
   *  table its maximum; and up to any instant `until` that no reading passes, the
   *  admissions stay within what that time has paid for. */
  lemma Conservation(limits: Limits, start: Instant, rs: seq<Request>, until: Instant)
    requires LimitsOk(limits)
    ensures var w := Run(Begin(limits, start), rs);
            && Balanced(w, limits, start)
            && (start <= until && NonePasses(rs, until) ==>
                  && w.controller.global.last <= until
                  && |w.log| <= limits.globalInitial + (until - start) / limits.globalInterval)
  {
    hide Balanced, LimitsOk, Step, Run, NonePasses;
    RunBalanced(limits, start, rs);
    if start <= until && NonePasses(rs, until) {
      PhaseNotAhead(limits, start, rs, until);
      PaidFor(Run(Begin(limits, start), rs), limits, start, until);
    }
  }

  /** A limited request debits no source either; an admitted one debits only the
   *  bucket that answered for its source. */
  lemma SourcesDebited(c: Controller, ip: IpAddr, now: Instant, evicted: Option<IpAddr>, other: IpAddr)
    requires ControllerOk(c) && MayEvict(c, ip, now, evicted)
    ensures var (d, decision) := Admit(c, ip, now, evicted);
            && (other in d.sources ==> other in c.sources || (other == ip && decision.Allowed?))
            && (other in c.sources && Some(other) != evicted ==>
                  && other in d.sources
                  && (other != ip ==> d.sources[other] == c.sources[other])
                  && (other == ip && decision.Limited? ==>
                        d.sources[ip].bucket in {c.sources[ip].bucket, Refill(c.sources[ip].bucket, now)})
                  && (other == ip && decision.Allowed? ==>
                        Refill(c.sources[ip].bucket, now).tokens > 0
                        && d.sources[ip].bucket == Debit(Refill(c.sources[ip].bucket, now))))
  {
    hide *;
    if other == ip { OwnDebited(c, ip, now, evicted); } else { OthersKept(c, ip, now, evicted, other); }
  }

  /** Whatever the decision, a request writes one bucket back and sets the global one:
   *  the refilled bucket, debited if the request is admitted. */
  lemma AdmitStores(c: Controller, ip: IpAddr, now: Instant, evicted: Option<IpAddr>) returns (b: Bucket, g: Bucket)
    requires ControllerOk(c) && MayEvict(c, ip, now, evicted) && c.start <= now
    ensures ControllerOk(Evict(c, evicted))
    ensures var e := Evict(c, evicted);
            var (d, decision) := Admit(c, ip, now, evicted);
            var refilled := SourceBucketFor(e, ip, now);
            && d == Store(e, ip, now, b, decision.Allowed?).(global := g)
            && (decision.Allowed? ==> refilled.tokens > 0 && b == Debit(refilled))
            && (decision.Limited? ==> b == refilled)
  {
    EvictOk(c, evicted);
    var e := Evict(c, evicted);
    b := SourceBucketFor(e, ip, now);
    StoreKeepsGlobal(e, ip, now, b, false);
    hide ControllerOk, MayEvict, SourceBucketFor, Store, Refill, Evict;
    g := e.global;
    if b.tokens > 0 {
      g := Refill(e.global, now);
      if g.tokens > 0 { b, g := Debit(b), Debit(g); }
    }
  }

  lemma StoreKeepsGlobal(c: Controller, ip: IpAddr, now: Instant, b: Bucket, admitted: bool)
    ensures Store(c, ip, now, b, admitted).(global := c.global) == Store(c, ip, now, b, admitted)
  {
  }

  lemma StoreElsewhere(c: Controller, ip: IpAddr, now: Instant, b: Bucket, admitted: bool, other: IpAddr)
    requires other != ip
    ensures var d := Store(c, ip, now, b, admitted);
            (other in d.sources <==> other in c.sources) && (other in c.sources ==> d.sources[other] == c.sources[other])
  {
  }

  lemma EvictElsewhere(c: Controller, evicted: Option<IpAddr>, other: IpAddr)
    ensures var d := Evict(c, evicted);
            && (other in d.sources <==> other in c.sources && Some(other) != evicted)
            && (other in d.sources ==> d.sources[other] == c.sources[other])
  {
  }

  lemma OwnDebited(c: Controller, ip: IpAddr, now: Instant, evicted: Option<IpAddr>)
    requires ControllerOk(c) && MayEvict(c, ip, now, evicted)
    ensures var (d, decision) := Admit(c, ip, now, evicted);
            && (ip in d.sources ==> ip in c.sources || decision.Allowed?)
            && (ip in c.sources && Some(ip) != evicted ==>
                  && ip in d.sources
                  && (decision.Limited? ==>
                        d.sources[ip].bucket in {c.sources[ip].bucket, Refill(c.sources[ip].bucket, now)})
                  && (decision.Allowed? ==>
                        Refill(c.sources[ip].bucket, now).tokens > 0
                        && d.sources[ip].bucket == Debit(Refill(c.sources[ip].bucket, now))))
  {
    if c.start <= now {
      var b, g := AdmitStores(c, ip, now, evicted);
      EvictElsewhere(c, evicted, ip);
      hide Admit, ControllerOk, MayEvict, Evict, Refill;
    }
  }

  /** A request touches no other source but the one it drops. */
  lemma OthersKept(c: Controller, ip: IpAddr, now: Instant, evicted: Option<IpAddr>, other: IpAddr)
    requires ControllerOk(c) && MayEvict(c, ip, now, evicted) && other != ip
    ensures var d := Admit(c, ip, now, evicted).0;
            && (other in d.sources <==> other in c.sources && Some(other) != evicted)
            && (other in d.sources ==> d.sources[other] == c.sources[other])
  {
    if c.start <= now {
      var b, g := AdmitStores(c, ip, now, evicted);
      EvictElsewhere(c, evicted, other);
      StoreElsewhere(Evict(c, evicted), ip, now, b, Admit(c, ip, now, evicted).1.Allowed?, other);
      hide Admit, ControllerOk, MayEvict, Store, Evict;
    } else {
      hide ControllerOk;
    }
  }
}
