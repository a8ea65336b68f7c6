/** What the buckets hold at the start, and what none of them loses later. */
module AdmissionStart {
  import opened Options
  import opened Arithmetic
  import opened Admission
  import opened AdmissionBounds
  import opened AdmissionWindow

  // -------------------------------------------------- one instant: the start

  predicate AllAt(rs: seq<Request>, start: Instant) {
    forall i :: 0 <= i < |rs| ==> rs[i].now == start
  }

  /** At the start every token is either still there or was paid out: the global bucket
   *  has its initial ones, the overflow bucket exactly one, and each source its own. */
  ghost predicate Untouched(w: Watch, l: Limits, start: Instant) {
    var c := w.controller;
    && ControllerOk(c) && c.limits == l && c.start == start
    && c.global.last == start && |w.log| + c.global.tokens == l.globalInitial
    && c.overflow.last == start && Overflowed(w.log) + c.overflow.tokens == 1
    && (forall ip :: OneUntouched(Entry(c, ip), Own(w.log, ip, start, start), l, start))
  }

  predicate OneUntouched(e: Option<SourceBucket>, own: nat, l: Limits, start: Instant) {
    match e
    case None => own == 0
    case Some(s) => s.bucket.last == start && s.lastSeen == start && own + s.bucket.tokens == l.sourceInitial
  }

  lemma BeginUntouched(l: Limits, start: Instant)
    requires LimitsOk(l)
    ensures Untouched(Begin(l, start), l, start)
  {
  }

  lemma RefillAtOnce(b: Bucket)
    requires BucketOk(b)
    ensures Refill(b, b.last) == b
  {
    DivUnique(0, b.interval, 0);
  }

  /** Nothing is stale at the start. */
  lemma NothingStale(w: Watch, l: Limits, start: Instant, ip: IpAddr, evicted: Option<IpAddr>)
    requires Untouched(w, l, start) && MayEvict(w.controller, ip, start, evicted)
    ensures evicted == None
  {
    if evicted.Some? {
      assert OneUntouched(Entry(w.controller, evicted.value), Own(w.log, evicted.value, start, start), l, start);
    }
    MulMonotone(l.sourceInterval, 1, l.sourceBurst);
  }

  lemma StepUntouched(w: Watch, l: Limits, start: Instant, r: Request)
    requires LimitsOk(l) && Untouched(w, l, start) && r.now == start
    ensures Untouched(Step(w, r), l, start)
  {
    hide Admit, MayEvict, Own, Overflowed, ControllerOk, LimitsOk, Select, OneUntouched, Entry;
    var c := w.controller;
    if ControllerOk(c) && MayEvict(c, r.ip, start, r.evicted) {
      NothingStale(w, l, start, r.ip, r.evicted);
      AdmitAtStart(w, l, start, r.ip);
      AdmitKeeps(c, r.ip, start, None);
      var (d, decision) := Admit(c, r.ip, start, None);
      var g := Grant(r.ip, start, Select(c, r.ip).Overflow?);
      assert Evict(c, None) == c;
      var log := if decision.Allowed? then w.log + [g] else w.log;
      assert Step(w, r) == Watch(d, log);
      OverflowedSnoc(w.log, g);
      forall ip ensures OneUntouched(Entry(d, ip), Own(log, ip, start, start), l, start) {
        OwnAppend(w.log, g, ip, start, start);
        assert OneUntouched(Entry(c, ip), Own(w.log, ip, start, start), l, start);
        if ip != r.ip { OtherEntry(c, r.ip, start, None, ip); } else { OwnUntouched(w, l, start, ip); }
      }
    }
  }

  /** The source that asks. */
  lemma OwnUntouched(w: Watch, l: Limits, start: Instant, ip: IpAddr)
    requires LimitsOk(l) && Untouched(w, l, start) && MayEvict(w.controller, ip, start, None)
    ensures var (d, decision) := Admit(w.controller, ip, start, None);
            var own := Own(w.log, ip, start, start);
            var paid := decision.Allowed? && !Select(w.controller, ip).Overflow?;
            OneUntouched(Entry(d, ip), if paid then own + 1 else own, l, start)
  {
    hide Admit, MayEvict, Own, Overflowed, ControllerOk, LimitsOk;
    AdmitAtStart(w, l, start, ip);
    assert OneUntouched(Entry(w.controller, ip), Own(w.log, ip, start, start), l, start);
  }

  /** A request at the start is admitted exactly when the global bucket has a token and
   *  its source has one: its own initial ones, or the one of the overflow bucket. */
  lemma AdmitAtStart(w: Watch, l: Limits, start: Instant, ip: IpAddr)
    requires LimitsOk(l) && Untouched(w, l, start) && MayEvict(w.controller, ip, start, None)
    ensures
      var c := w.controller;
      var (d, decision) := Admit(c, ip, start, None);
      var paid := if decision.Allowed? then 1 else 0;
      && (decision.Allowed? <==>
            && |w.log| < l.globalInitial
            && (if ip in c.sources then Own(w.log, ip, start, start) < l.sourceInitial
                else |c.sources| < l.maximumSources || Overflowed(w.log) == 0))
      && d.limits == l && d.start == start
      && d.global == c.global.(tokens := c.global.tokens - paid)
      && (match Select(c, ip)
          case Tracked => d.overflow == c.overflow
                          && Entry(d, ip) == Some(SourceBucket(
                               c.sources[ip].bucket.(tokens := c.sources[ip].bucket.tokens - paid), start))
          case Overflow => d.overflow == c.overflow.(tokens := c.overflow.tokens - paid) && Entry(d, ip) == None
          case New => d.overflow == c.overflow
                      && Entry(d, ip) == if paid == 1
                           then Some(SourceBucket(Bucket(l.sourceInitial - 1, l.sourceBurst, l.sourceInterval, start), start))
                           else None)
  {
    hide Admit, Refill, Own, Overflowed, MayEvict, ControllerOk, LimitsOk, Availability;
    var c := w.controller;
    assert OneUntouched(Entry(c, ip), Own(w.log, ip, start, start), l, start);
    BucketsOk(c);
    RefillAtOnce(c.global);
    RefillAtOnce(c.overflow);
    if ip in c.sources { RefillAtOnce(c.sources[ip].bucket); }
    AdmittedExactly(c, ip, start, None);
    SharedBuckets(c, ip, start, None);
    var b, g := AdmitStores(c, ip, start, None);
    assert Evict(c, None) == c;
  }

  lemma BucketsOk(c: Controller)
    requires ControllerOk(c)
    ensures BucketOk(c.global) && BucketOk(c.overflow) && forall ip :: ip in c.sources ==> BucketOk(c.sources[ip].bucket)
  {
  }

  lemma {:induction false} RunUntouched(l: Limits, start: Instant, rs: seq<Request>)
    requires LimitsOk(l) && AllAt(rs, start)
    ensures Untouched(Run(Begin(l, start), rs), l, start)
  {
    hide Untouched, LimitsOk, Step;
    if rs == [] {
      BeginUntouched(l, start);
    } else {
      RunUntouched(l, start, rs[..|rs| - 1]);
      StepUntouched(Run(Begin(l, start), rs[..|rs| - 1]), l, start, rs[|rs| - 1]);
    }
  }

  /** Whatever came before at the start instant, a request then is admitted exactly when
   *  fewer than the initial global tokens are spent, and fewer than the initial tokens
   *  of its source, or, once the table is full, none of a newcomer's kind was. */
  lemma StartExactly(l: Limits, start: Instant, rs: seq<Request>, ip: IpAddr)
    requires LimitsOk(l) && AllAt(rs, start)
    requires MayEvict(Run(Begin(l, start), rs).controller, ip, start, None)
    ensures
      var w := Run(Begin(l, start), rs);
      var c := w.controller;
      && ControllerOk(c)
      && (Admit(c, ip, start, None).1.Allowed? <==>
            && |w.log| < l.globalInitial
            && (if ip in c.sources then Own(w.log, ip, start, start) < l.sourceInitial
                else |c.sources| < l.maximumSources || Overflowed(w.log) == 0))
  {
    RunUntouched(l, start, rs);
    AdmitAtStart(Run(Begin(l, start), rs), l, start, ip);
    hide Admit, MayEvict, Own, Overflowed, Run;
  }

  // ------------------------------------------------- the table fills, then overflow

  /** Requests at the start from `n` different sources. */
  function Newcomers(start: Instant, n: nat): seq<Request> {
    if n == 0 then [] else Newcomers(start, n - 1) + [Request(V4(n), start, None)]
  }

  lemma {:induction false} NewcomersAtStart(start: Instant, n: nat)
    ensures AllAt(Newcomers(start, n), start)
  {
    if n > 0 { NewcomersAtStart(start, n - 1); }
  }

  /** The first sources are all tracked and admitted. */
  ghost predicate Filled(w: Watch, l: Limits, start: Instant, n: nat) {
    && Untouched(w, l, start) && |w.controller.sources| == n && |w.log| == n && Overflowed(w.log) == 0
    && (forall k :: k > n ==> V4(k) !in w.controller.sources)
  }

  lemma {:induction false} NewcomersFill(l: Limits, start: Instant, n: nat)
    requires LimitsOk(l) && n <= l.maximumSources && n <= l.globalInitial
    ensures Filled(Run(Begin(l, start), Newcomers(start, n)), l, start, n)
  {
    if n == 0 {
      BeginUntouched(l, start);
    } else {
      hide Filled, LimitsOk;
      NewcomersFill(l, start, n - 1);
      var r := Request(V4(n), start, None);
      var before := Newcomers(start, n - 1);
      assert (before + [r])[..|before|] == before;
      NewcomerTracked(Run(Begin(l, start), before), l, start, n);
    }
  }

  lemma NewcomerTracked(w: Watch, l: Limits, start: Instant, n: nat)
    requires LimitsOk(l) && 1 <= n <= l.maximumSources && n <= l.globalInitial && Filled(w, l, start, n - 1)
    ensures Filled(Step(w, Request(V4(n), start, None)), l, start, n)
  {
    var c := w.controller;
    assert MayEvict(c, V4(n), start, None);
    StepUntouched(w, l, start, Request(V4(n), start, None));
    AdmitAtStart(w, l, start, V4(n));
    OverflowedSnoc(w.log, Grant(V4(n), start, false));
    GrowsByOne(w, l, start, n);
    hide Admit, MayEvict, Own, Overflowed, Untouched, ControllerOk;
  }

  lemma GrowsByOne(w: Watch, l: Limits, start: Instant, n: nat)
    requires LimitsOk(l) && 1 <= n <= l.maximumSources && n <= l.globalInitial && Filled(w, l, start, n - 1)
    ensures var d := Step(w, Request(V4(n), start, None)).controller;
            |d.sources| == n && (forall k :: k > n ==> V4(k) !in d.sources)
    ensures !Select(w.controller, V4(n)).Overflow?
  {
    hide Admit, Own, Overflowed, Refill, Store, SourceBucketFor, ControllerOk, LimitsOk;
    var c := w.controller;
    AdmitAtStart(w, l, start, V4(n));
    var d := Admit(c, V4(n), start, None).0;
    forall ip | ip != V4(n) ensures Entry(d, ip) == Entry(c, ip) { OtherEntry(c, V4(n), start, None, ip); }
    assert d.sources.Keys == c.sources.Keys + {V4(n)} by {
      forall ip ensures ip in d.sources <==> ip in c.sources || ip == V4(n) {
        if ip != V4(n) { assert Entry(d, ip) == Entry(c, ip); }
      }
    }
  }

  /** Once the table is full, one more new source is admitted at the start, through the
   *  overflow bucket, and no second one is. */
  lemma OneOverflow(l: Limits, start: Instant)
    requires LimitsOk(l) && l.maximumSources < l.globalInitial
    ensures
      var n := l.maximumSources;
      var first, second := Request(V4(n + 1), start, None), Request(V4(n + 2), start, None);
      var w := Run(Begin(l, start), Newcomers(start, n));
      var w2 := Step(w, first);
      && |w.log| == n && |w.controller.sources| == n
      && w2.log == w.log + [Grant(V4(n + 1), start, true)] && w2.controller.sources == w.controller.sources
      && Step(w2, second).log == w2.log
  {
    hide Step, Run, Untouched, LimitsOk, Overflowed, ControllerOk;
    var n := l.maximumSources;
    var w := Run(Begin(l, start), Newcomers(start, n));
    NewcomersFill(l, start, n);
    FullNewcomer(w, l, start, n + 1);
    var w2 := Step(w, Request(V4(n + 1), start, None));
    StepUntouched(w, l, start, Request(V4(n + 1), start, None));
    OverflowedSnoc(w.log, Grant(V4(n + 1), start, true));
    FullNewcomer(w2, l, start, n + 2);
  }

  /** A newcomer at a full table: admitted while the overflow token is there. */
  lemma FullNewcomer(w: Watch, l: Limits, start: Instant, k: nat)
    requires LimitsOk(l) && Untouched(w, l, start) && |w.controller.sources| == l.maximumSources
    requires V4(k) !in w.controller.sources
    ensures var d := Step(w, Request(V4(k), start, None));
            && d.controller.sources == w.controller.sources
            && d.log == if Overflowed(w.log) == 0 && |w.log| < l.globalInitial
                        then w.log + [Grant(V4(k), start, true)] else w.log
  {
    var c := w.controller;
    forall ip | ip in c.sources ensures !Stale(c, ip, start) {
      assert OneUntouched(Entry(c, ip), Own(w.log, ip, start, start), l, start);
      MulMonotone(l.sourceInterval, 1, l.sourceBurst);
    }
    AdmitAtStart(w, l, start, V4(k));
    var d := Admit(c, V4(k), start, None).0;
    forall ip | ip != V4(k) ensures Entry(d, ip) == Entry(c, ip) { OtherEntry(c, V4(k), start, None, ip); }
    hide Admit, Own, Overflowed;
    assert d.sources == c.sources by {
      forall ip ensures Entry(d, ip) == Entry(c, ip) {}
    }
  }

  // --------------------------------------------------------- nothing is lost

  /** No token is lost at the burst when this request refills the shared buckets. */
  predicate KeepsAll(c: Controller, now: Instant)
    requires ControllerOk(c)
  {
    && c.global.tokens + Min(Intervals(c.global, now), U32_MAX) <= c.global.burst
    && c.overflow.tokens + Min(Intervals(c.overflow, now), U32_MAX) <= c.overflow.burst
  }

  predicate Lossless(l: Limits, start: Instant, rs: seq<Request>) {
    rs == [] || (var before := rs[..|rs| - 1];
                 && Lossless(l, start, before)
                 && var c := Run(Begin(l, start), before).controller;
                    ControllerOk(c) && KeepsAll(c, rs[|rs| - 1].now))
  }

  /** Everything a bucket was given is still there or was paid out. */
  predicate Exact(paid: nat, initial: nat, start: Instant, b: Bucket) {
    BucketOk(b) && start <= b.last && paid + b.tokens == initial + (b.last - start) / b.interval
  }

  lemma RefillExact(paid: nat, initial: nat, start: Instant, b: Bucket, now: Instant)
    requires Exact(paid, initial, start, b) && b.tokens + Min(Intervals(b, now), U32_MAX) <= b.burst
    ensures Exact(paid, initial, start, Refill(b, now))
  {
    hide Refill;
    var k := Min(Intervals(b, now), U32_MAX);
    DivShift(b.last - start, b.interval, k);
    RefillPhase(b, now);
    RefillWhole(b, now);
  }

  lemma RefillWhole(b: Bucket, now: Instant)
    requires BucketOk(b) && b.tokens + Min(Intervals(b, now), U32_MAX) <= b.burst
    ensures Refill(b, now).tokens == b.tokens + Min(Intervals(b, now), U32_MAX)
  {
  }

  lemma DebitExact(paid: nat, initial: nat, start: Instant, b: Bucket)
    requires Exact(paid, initial, start, b) && b.tokens > 0
    ensures Exact(paid + 1, initial, start, Debit(b))
  {
  }

  ghost predicate BothExact(w: Watch, l: Limits, start: Instant) {
    var c := w.controller;
    && ControllerOk(c) && c.limits == l && c.start == start
    && Exact(|w.log|, l.globalInitial, start, c.global)
    && Exact(Overflowed(w.log), 1, start, c.overflow)
  }

  lemma StepExact(w: Watch, l: Limits, start: Instant, r: Request)
    requires BothExact(w, l, start) && KeepsAll(w.controller, r.now)
    ensures BothExact(Step(w, r), l, start)
  {
    hide Refill, Admit, Overflowed, Select, Evict, Exact, MayEvict, ControllerOk;
    var c := w.controller;
    if MayEvict(c, r.ip, r.now, r.evicted) {
      SharedBuckets(c, r.ip, r.now, r.evicted);
      AdmitKeeps(c, r.ip, r.now, r.evicted);
      BothOk(w, l, start, r.now);
      RefillExact(|w.log|, l.globalInitial, start, c.global, r.now);
      RefillExact(Overflowed(w.log), 1, start, c.overflow, r.now);
      OverflowedSnoc(w.log, Grant(r.ip, r.now, Select(Evict(c, r.evicted), r.ip).Overflow?));
      var global, overflow := Refill(c.global, r.now), Refill(c.overflow, r.now);
      if global.tokens > 0 { DebitExact(|w.log|, l.globalInitial, start, global); }
      if overflow.tokens > 0 { DebitExact(Overflowed(w.log), 1, start, overflow); }
    }
  }

  lemma BothOk(w: Watch, l: Limits, start: Instant, now: Instant)
    requires BothExact(w, l, start) && KeepsAll(w.controller, now)
    ensures BucketOk(w.controller.global) && BucketOk(w.controller.overflow)
    ensures w.controller.global.tokens + Min(Intervals(w.controller.global, now), U32_MAX) <= w.controller.global.burst
    ensures w.controller.overflow.tokens + Min(Intervals(w.controller.overflow, now), U32_MAX)
            <= w.controller.overflow.burst
  {
  }

  lemma BeginExact(l: Limits, start: Instant)
    requires LimitsOk(l)
    ensures BothExact(Begin(l, start), l, start)
  {
    DivUnique(0, l.globalInterval, 0);
    DivUnique(0, l.sourceInterval, 0);
  }

  /** As long as no token is lost at a burst, admissions and tokens of the global bucket
   *  are its initial tokens and the intervals its phase has passed, exactly; so for the
   *  overflow bucket, which starts with one. */
  lemma {:induction false} NothingLost(l: Limits, start: Instant, rs: seq<Request>)
    requires LimitsOk(l) && Lossless(l, start, rs)
    ensures var w := Run(Begin(l, start), rs);
            && BothExact(w, l, start)
            && |w.log| + w.controller.global.tokens ==
               l.globalInitial + (w.controller.global.last - start) / l.globalInterval
            && Overflowed(w.log) + w.controller.overflow.tokens ==
               1 + (w.controller.overflow.last - start) / l.sourceInterval
  {
    hide LimitsOk, Step, KeepsAll;
    if rs == [] {
      BeginExact(l, start);
    } else {
      NothingLost(l, start, rs[..|rs| - 1]);
      StepExact(Run(Begin(l, start), rs[..|rs| - 1]), l, start, rs[|rs| - 1]);
    }
    ExactIntervals(Run(Begin(l, start), rs), l, start);
    hide BothExact;
  }

  lemma ExactIntervals(w: Watch, l: Limits, start: Instant)
    requires BothExact(w, l, start)
    ensures l.globalInterval > 0 && l.sourceInterval > 0
    ensures |w.log| + w.controller.global.tokens ==
            l.globalInitial + (w.controller.global.last - start) / l.globalInterval
    ensures Overflowed(w.log) + w.controller.overflow.tokens ==
            1 + (w.controller.overflow.last - start) / l.sourceInterval
  {
  }

  // ------------------------------------------------------------------ staleness

  /** A source becomes stale exactly when the bucket it emptied on its last visit is
   *  full again, so that forgetting it neither takes nor gives anything. */
  lemma StaleExactly(c: Controller, ip: IpAddr, now: Instant)
    requires ControllerOk(c) && ip in c.sources
    requires c.sources[ip].bucket.tokens == 0 && c.sources[ip].bucket.last == c.sources[ip].lastSeen
    ensures Stale(c, ip, now) <==> Refill(c.sources[ip].bucket, now).tokens == c.limits.sourceBurst
  {
    var b := c.sources[ip].bucket;
    BurstsLater(b, now);
  }

  lemma BurstsLater(b: Bucket, now: Instant)
    requires BucketOk(b) && b.burst >= 1 && b.tokens == 0
    ensures Refill(b, now).tokens == b.burst <==> Since(now, b.last) >= b.interval * b.burst
  {
    WholeIntervals(Since(now, b.last), b.interval, b.burst);
    BurstFull(b, now);
    hide Refill, Since;
  }

  lemma BurstFull(b: Bucket, now: Instant)
    requires BucketOk(b) && b.burst >= 1 && b.tokens == 0
    ensures Refill(b, now).tokens == b.burst <==> Intervals(b, now) >= b.burst
  {
    hide Intervals;
  }

  lemma WholeIntervals(x: int, i: int, n: int)
    requires i > 0
    ensures x / i >= n <==> x >= i * n
  {
    DivBounds(x, i);
    if x / i >= n { MulMonotone(i, n, x / i); } else { MulMonotone(i, x / i + 1, n); }
  }

  /** When a source was last seen: a tracked one is now, limited or not, unless the clock
   *  stepped back; a newcomer is tracked exactly if it is admitted to a bucket of its own. */
  lemma SeenExactly(c: Controller, ip: IpAddr, now: Instant, evicted: Option<IpAddr>)
    requires ControllerOk(c) && MayEvict(c, ip, now, evicted) && c.start <= now
    ensures var (d, decision) := Admit(c, ip, now, evicted);
            var roomy := |c.sources| < c.limits.maximumSources || evicted.Some?;
            && (ip in c.sources ==>
                  && ip in d.sources
                  && (now <= c.sources[ip].lastSeen ==> d.sources[ip].lastSeen == c.sources[ip].lastSeen)
                  && (c.sources[ip].lastSeen < now ==> d.sources[ip].lastSeen == now))
            && (ip !in c.sources ==>
                  && (ip in d.sources <==> decision.Allowed? && roomy)
                  && (ip in d.sources ==> d.sources[ip].lastSeen == now))
  {
    var b, g := AdmitStores(c, ip, now, evicted);
    var e := Evict(c, evicted);
    EvictOk(c, evicted);
    hide Admit, Refill, SourceBucketFor, ControllerOk;
  }

  /** A clock reading before the start is told the global interval and changes nothing. */
  lemma BeforeTheStart(c: Controller, ip: IpAddr, now: Instant)
    requires ControllerOk(c) && now < c.start
    ensures Admit(c, ip, now, None) == (c, Limited(c.limits.globalInterval))
  {
  }
}
