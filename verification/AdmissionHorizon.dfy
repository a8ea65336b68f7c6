/** The horizon of the window bound is exact.
 *
 *  A bucket idle for more than 2^32 of its intervals is refilled in two parts. The
 *  run below spends both, and then the next interval's token, in less than one interval.
 */
module AdmissionHorizon {
  import opened Options
  import opened Arithmetic
  import opened Admission
  import opened AdmissionBounds
  import opened AdmissionWindow

  /** The per-source window law over every run of at most this span. */
  ghost predicate WindowLaw(l: Limits, start: Instant, span: nat)
    requires LimitsOk(l)
  {
    forall rs: seq<Request>, ip, t0: Instant, t1: Instant :: Monotone(rs) && Within(rs, start, span) && t0 <= t1 ==>
      Own(Run(Begin(l, start), rs).log, ip, t0, t1) <= l.sourceBurst + (t1 - t0) / l.sourceInterval + 1
  }

  const IP := V4(0)

  /** The global bucket has room for burst + 2 admissions within one interval. */
  predicate Roomy(l: Limits)
    requires LimitsOk(l)
  {
    l.sourceBurst + 2 <= l.globalBurst + (l.sourceInterval - 1) / l.globalInterval
  }

  /** The first instant of the last interval before the horizon. */
  function Dusk(l: Limits, start: Instant): Instant
    requires LimitsOk(l)
  {
    start + (U32_MAX + 1) * l.sourceInterval + 1
  }

  /** When the j-th visit of the dusk comes: as long as the global bucket lasts at once,
   *  and then with each token it gains. */
  function VisitTime(l: Limits, start: Instant, j: nat): Instant
    requires LimitsOk(l)
  {
    Dusk(l, start) + (if j <= l.globalBurst then 0 else (j - l.globalBurst) * l.globalInterval)
  }

  /** One request at the start and `j` of the dusk. */
  function Visits(l: Limits, start: Instant, j: nat): seq<Request>
    requires LimitsOk(l)
  {
    if j == 0 then [Request(IP, start, None)]
    else Visits(l, start, j - 1) + [Request(IP, VisitTime(l, start, j), None)]
  }

  function VisitsState(l: Limits, start: Instant, j: nat): Watch
    requires LimitsOk(l)
  {
    Run(Begin(l, start), Visits(l, start, j))
  }

  lemma RunSnoc(w: Watch, rs: seq<Request>, r: Request)
    ensures Run(w, rs + [r]) == Step(Run(w, rs), r)
  {
    assert (rs + [r])[..|rs|] == rs;
  }

  /** A request that finds both buckets with a token is admitted. */
  lemma Admitted(w: Watch, ip: IpAddr, now: Instant)
    requires ControllerOk(w.controller) && w.controller.start <= now && ip in w.controller.sources
    requires Refill(w.controller.sources[ip].bucket, now).tokens > 0 && Refill(w.controller.global, now).tokens > 0
    ensures var d := Step(w, Request(ip, now, None));
            var s := w.controller.sources[ip];
            && ControllerOk(d.controller)
            && d.controller.start == w.controller.start && d.controller.limits == w.controller.limits
            && d.log == w.log + [Grant(ip, now, false)]
            && Entry(d.controller, ip) == Some(SourceBucket(Debit(Refill(s.bucket, now)), Max(s.lastSeen, now)))
            && d.controller.global == Debit(Refill(w.controller.global, now))
  {
    AdmitKeeps(w.controller, ip, now, None);
    OwnEntry(w.controller, ip, now, None);
    SharedBuckets(w.controller, ip, now, None);
    hide ControllerOk, Refill;
  }

  lemma FirstVisit(l: Limits, start: Instant)
    requires LimitsOk(l)
    ensures var w := VisitsState(l, start, 0);
            && ControllerOk(w.controller) && w.controller.start == start && w.controller.limits == l
            && w.log == [Grant(IP, start, false)]
            && Entry(w.controller, IP) ==
               Some(SourceBucket(Bucket(l.sourceInitial - 1, l.sourceBurst, l.sourceInterval, start), start))
            && w.controller.global == Bucket(l.globalInitial - 1, l.globalBurst, l.globalInterval, start)
  {
    var w := Begin(l, start);
    RunSnoc(w, [], Request(IP, start, None));
    assert [] + [Request(IP, start, None)] == [Request(IP, start, None)];
    assert VisitsState(l, start, 0) == Step(w, Request(IP, start, None));
    AdmitKeeps(w.controller, IP, start, None);
    DivUnique(0, l.globalInterval, 0);
    assert Refill(w.controller.global, start) == w.controller.global;
    OwnEntry(w.controller, IP, start, None);
  }

  lemma DuskIntervals(l: Limits, start: Instant, interval: nat)
    requires LimitsOk(l) && IntervalOk(interval)
    ensures start < Dusk(l, start) && (Dusk(l, start) - start) / interval >= 1024
  {
    MulMonotone(U32_MAX + 1, 10 * MILLISECOND, l.sourceInterval);
    assert Dusk(l, start) - start >= 3600 * SECOND * 1024;
    MulMonotone(1024, interval, 3600 * SECOND);
    DivUnique(1024 * interval, interval, 1024);
    DivMonotone(1024 * interval, Dusk(l, start) - start, interval);
  }

  lemma IntervalPositive(l: Limits)
    requires LimitsOk(l)
    ensures l.sourceInterval > 0 && l.globalInterval > 0 && Horizon(l) > 0
  {
  }

  lemma DuskToHorizon(l: Limits, start: Instant)
    requires LimitsOk(l)
    ensures start + Horizon(l) == Dusk(l, start) + l.sourceInterval - 1
  {
    Distributed(U32_MAX + 1, l.sourceInterval);
  }

  lemma Distributed(k: int, i: int)
    ensures (k + 1) * i == k * i + i
  {
  }

  /** In a bucket with room, the visits without a token of their own fit the time. */
  lemma RoomFor(l: Limits, k: nat)
    requires LimitsOk(l) && Roomy(l) && l.globalBurst + k <= l.sourceBurst + 2
    ensures k * l.globalInterval <= l.sourceInterval - 1
  {
    var room, i := l.sourceInterval - 1, l.globalInterval;
    DivBounds(room, i);
    MulMonotone(i, k, room / i);
  }

  /** The visits come in order, before the horizon, and leave the last one time for
   *  one more token. */
  lemma VisitTimes(l: Limits, start: Instant, j: nat)
    requires LimitsOk(l) && Roomy(l) && j <= l.sourceBurst + 1
    ensures start + Horizon(l) == Dusk(l, start) + l.sourceInterval - 1
    ensures Dusk(l, start) <= VisitTime(l, start, j) < start + Horizon(l)
    ensures j >= l.globalBurst && j <= l.sourceBurst ==> VisitTime(l, start, j + 1) == VisitTime(l, start, j) + l.globalInterval
    ensures j < l.globalBurst ==> VisitTime(l, start, j + 1) == VisitTime(l, start, j) == Dusk(l, start)
    ensures j >= l.globalBurst && j == l.sourceBurst + 1 ==>
              VisitTime(l, start, j) + l.globalInterval <= start + Horizon(l)
  {
    hide Dusk, Horizon, Roomy, LimitsOk;
    DuskToHorizon(l, start);
    IntervalPositive(l);
    if j >= l.globalBurst {
      RoomFor(l, j + 1 - l.globalBurst);
      Distributed(j - l.globalBurst, l.globalInterval);
    } else {
      SourceIntervalLong(l);
    }
  }

  lemma SourceIntervalLong(l: Limits)
    requires LimitsOk(l)
    ensures l.sourceInterval >= 2
  {
  }

  /** The source's bucket after the j-th visit of the dusk. */
  function VisitedBucket(l: Limits, start: Instant, j: nat): Bucket
    requires LimitsOk(l) && 1 <= j <= l.sourceBurst + 1
  {
    Bucket(if j == 1 then l.sourceBurst - 1 else l.sourceBurst + 1 - j,
           l.sourceBurst, l.sourceInterval,
           start + (if j == 1 then U32_MAX else U32_MAX + 1) * l.sourceInterval)
  }

  /** The first refill is capped, the second adds the interval it left. */
  lemma VisitedRefill(l: Limits, start: Instant, j: nat, now: Instant)
    requires LimitsOk(l) && j <= l.sourceBurst && Dusk(l, start) <= now < start + Horizon(l)
    ensures var b := if j == 0 then Bucket(l.sourceInitial - 1, l.sourceBurst, l.sourceInterval, start)
                     else VisitedBucket(l, start, j);
            BucketOk(b) && Refill(b, now).tokens > 0 && Debit(Refill(b, now)) == VisitedBucket(l, start, j + 1)
  {
    var i := l.sourceInterval;
    if j == 0 {
      DivUnique(now - start, i, U32_MAX + 1);
      assert i * U32_MAX == U32_MAX * i;
    } else if j == 1 {
      DivUnique(now - VisitedBucket(l, start, 1).last, i, 1);
      assert i * 1 == i;
    } else {
      DivUnique(now - VisitedBucket(l, start, j).last, i, 0);
    }
  }

  /** The controller after `j` visits of the dusk. */
  ghost predicate Spent(w: Watch, l: Limits, start: Instant, j: nat)
    requires LimitsOk(l) && 1 <= j <= l.sourceBurst + 1
  {
    && ControllerOk(w.controller) && w.controller.start == start && w.controller.limits == l
    && Entry(w.controller, IP) == Some(SourceBucket(VisitedBucket(l, start, j), VisitTime(l, start, j)))
    && w.controller.global.tokens >= l.globalBurst - j && w.controller.global.last <= VisitTime(l, start, j)
    && Own(w.log, IP, Dusk(l, start), start + Horizon(l)) == j
  }

  lemma RefillGains(b: Bucket, now: Instant)
    requires BucketOk(b)
    ensures Refill(b, now).tokens >= b.tokens
    ensures Since(now, b.last) / b.interval >= b.burst ==> Refill(b, now).tokens == b.burst
  {
  }

  /** One interval after its phase a bucket has a token. */
  lemma RefillOne(b: Bucket, now: Instant)
    requires BucketOk(b) && b.burst >= 1 && b.last + b.interval <= now
    ensures Refill(b, now).tokens >= 1
  {
    DivUnique(b.interval, b.interval, 1);
    DivMonotone(b.interval, now - b.last, b.interval);
  }

  lemma FirstOfTheDusk(l: Limits, start: Instant)
    requires LimitsOk(l) && Roomy(l)
    ensures Spent(VisitsState(l, start, 1), l, start, 1)
  {
    var dusk, end, w := Dusk(l, start), start + Horizon(l), VisitsState(l, start, 0);
    FirstVisit(l, start);
    VisitTimes(l, start, 1);
    VisitTimes(l, start, 0);
    VisitedRefill(l, start, 0, dusk);
    DuskIntervals(l, start, l.globalInterval);
    RefillGains(w.controller.global, dusk);
    RefillPhase(w.controller.global, dusk);
    RunSnoc(Begin(l, start), Visits(l, start, 0), Request(IP, dusk, None));
    OwnAppend([], Grant(IP, start, false), IP, dusk, end);
    OwnAppend(w.log, Grant(IP, dusk, false), IP, dusk, end);
    assert [] + [Grant(IP, start, false)] == w.log;
    hide ControllerOk, Refill, VisitedBucket, Dusk, Roomy;
    Admitted(w, IP, dusk);
  }

  /** The next visit finds a token: one that is left, or one just gained. */
  lemma NextToken(w: Watch, l: Limits, start: Instant, j: nat, now: Instant)
    requires LimitsOk(l) && 1 <= j <= l.sourceBurst + 1 && Spent(w, l, start, j)
    requires j >= l.globalBurst ==> VisitTime(l, start, j) + l.globalInterval <= now
    ensures BucketOk(w.controller.global) && Refill(w.controller.global, now).tokens >= 1
    ensures Refill(w.controller.global, now).tokens >= l.globalBurst - j
  {
    RefillGains(w.controller.global, now);
    if j >= l.globalBurst { RefillOne(w.controller.global, now); }
  }

  lemma NextOfTheDusk(w: Watch, l: Limits, start: Instant, j: nat)
    requires LimitsOk(l) && Roomy(l) && 1 <= j <= l.sourceBurst
    requires Spent(w, l, start, j)
    ensures Spent(Step(w, Request(IP, VisitTime(l, start, j + 1), None)), l, start, j + 1)
  {
    hide ControllerOk, Refill, VisitedBucket, Dusk, VisitTime, Roomy, Own, Step, Horizon, Intervals;
    var now := VisitTime(l, start, j + 1);
    VisitTimes(l, start, j);
    VisitTimes(l, start, j + 1);
    VisitedRefill(l, start, j, now);
    NextToken(w, l, start, j, now);
    RefillPhase(w.controller.global, now);
    OwnAppend(w.log, Grant(IP, now, false), IP, Dusk(l, start), start + Horizon(l));
    DuskIntervals(l, start, l.sourceInterval);
    Admitted(w, IP, now);
  }

  lemma {:induction false} VisitsSpend(l: Limits, start: Instant, j: nat)
    requires LimitsOk(l) && Roomy(l) && 1 <= j <= l.sourceBurst + 1
    ensures Spent(VisitsState(l, start, j), l, start, j)
  {
    hide Spent, LimitsOk, Roomy;
    if j == 1 {
      FirstOfTheDusk(l, start);
    } else {
      VisitsSpend(l, start, j - 1);
      NextOfTheDusk(VisitsState(l, start, j - 1), l, start, j - 1);
      RunSnoc(Begin(l, start), Visits(l, start, j - 1), Request(IP, VisitTime(l, start, j), None));
    }
  }

  lemma VisitAtHorizon(w: Watch, l: Limits, start: Instant)
    requires LimitsOk(l) && Roomy(l) && Spent(w, l, start, l.sourceBurst + 1)
    ensures Own(Step(w, Request(IP, start + Horizon(l), None)).log, IP, Dusk(l, start), start + Horizon(l)) == l.sourceBurst + 2
  {
    var end := start + Horizon(l);
    HorizonRefill(l, start);
    VisitTimes(l, start, l.sourceBurst + 1);
    NextToken(w, l, start, l.sourceBurst + 1, end);
    OwnAppend(w.log, Grant(IP, end, false), IP, Dusk(l, start), end);
    hide ControllerOk, Refill, VisitedBucket, LimitsOk, VisitTime, Roomy;
    Admitted(w, IP, end);
  }

  /** Burst + 2 admissions within less than one interval, which ends at the horizon. */
  lemma LastVisit(l: Limits, start: Instant)
    requires LimitsOk(l) && Roomy(l)
    ensures var rs := Visits(l, start, l.sourceBurst + 1) + [Request(IP, start + Horizon(l), None)];
            Own(Run(Begin(l, start), rs).log, IP, Dusk(l, start), start + Horizon(l)) == l.sourceBurst + 2
  {
    VisitsSpend(l, start, l.sourceBurst + 1);
    RunSnoc(Begin(l, start), Visits(l, start, l.sourceBurst + 1), Request(IP, start + Horizon(l), None));
    VisitAtHorizon(VisitsState(l, start, l.sourceBurst + 1), l, start);
    hide Spent, Step, Run;
  }

  lemma HorizonRefill(l: Limits, start: Instant)
    requires LimitsOk(l)
    ensures var b := VisitedBucket(l, start, l.sourceBurst + 1);
            BucketOk(b) && Refill(b, start + Horizon(l)).tokens > 0
  {
    DivUnique(start + Horizon(l) - VisitedBucket(l, start, l.sourceBurst + 1).last, l.sourceInterval, 1);
  }

  /** The visits are in order, and none comes after the last of them. */
  lemma {:induction false} VisitsOrdered(l: Limits, start: Instant, j: nat)
    requires LimitsOk(l) && Roomy(l) && j <= l.sourceBurst + 1
    ensures Monotone(Visits(l, start, j)) && Within(Visits(l, start, j), start, Horizon(l) - 1)
    ensures forall i :: 0 <= i < |Visits(l, start, j)| ==> Visits(l, start, j)[i].now <= VisitTime(l, start, j)
  {
    DuskIntervals(l, start, l.sourceInterval);
    VisitTimes(l, start, j);
    hide Dusk, VisitTime, Roomy;
    if j > 0 {
      VisitTimes(l, start, j - 1);
      VisitsOrdered(l, start, j - 1);
    }
  }

  lemma OrderedSnoc(rs: seq<Request>, r: Request, start: Instant, span: nat)
    requires Monotone(rs) && Within(rs, start, span) && start <= r.now <= start + span
    requires forall i :: 0 <= i < |rs| ==> rs[i].now <= r.now
    ensures Monotone(rs + [r]) && Within(rs + [r], start, span)
  {
  }

  lemma WithinLonger(rs: seq<Request>, start: Instant, span: nat, longer: nat)
    requires Within(rs, start, span) && span <= longer
    ensures Within(rs, start, longer)
  {
  }

  /** One run with too many admissions in less than one interval breaks the law. */
  lemma BreaksLaw(l: Limits, start: Instant, span: nat, rs: seq<Request>, t0: Instant, t1: Instant)
    requires LimitsOk(l) && Monotone(rs) && Within(rs, start, span) && t0 <= t1 < t0 + l.sourceInterval
    requires Own(Run(Begin(l, start), rs).log, IP, t0, t1) == l.sourceBurst + 2
    ensures !WindowLaw(l, start, span)
  {
    hide Own, Run, Monotone, Within, Begin;
    DivUnique(t1 - t0, l.sourceInterval, 0);
  }

  lemma VisitsRun(l: Limits, start: Instant, span: nat)
    requires LimitsOk(l) && Roomy(l) && Horizon(l) <= span
    ensures var rs := Visits(l, start, l.sourceBurst + 1) + [Request(IP, start + Horizon(l), None)];
            Monotone(rs) && Within(rs, start, span)
  {
    hide *;
    IntervalPositive(l);
    VisitsOrdered(l, start, l.sourceBurst + 1);
    VisitTimes(l, start, l.sourceBurst + 1);
    WithinLonger(Visits(l, start, l.sourceBurst + 1), start, Horizon(l) - 1, span);
    OrderedSnoc(Visits(l, start, l.sourceBurst + 1), Request(IP, start + Horizon(l), None), start, span);
  }

  /** The visits, ending at the horizon, break the law. */
  lemma BeyondHorizon(l: Limits, start: Instant, span: nat)
    requires LimitsOk(l) && Roomy(l) && Horizon(l) <= span
    ensures !WindowLaw(l, start, span)
  {
    hide *;
    IntervalPositive(l);
    VisitsRun(l, start, span);
    LastVisit(l, start);
    VisitTimes(l, start, 0);
    BreaksLaw(l, start, span, Visits(l, start, l.sourceBurst + 1) + [Request(IP, start + Horizon(l), None)],
              Dusk(l, start), start + Horizon(l));
  }

  /** With a global bucket that leaves room, every run of this span obeys the window
   *  law if and only if the span ends before the horizon. */
  lemma WindowLawExactly(l: Limits, start: Instant, span: nat)
    requires LimitsOk(l) && Roomy(l)
    ensures WindowLaw(l, start, span) <==> span < 0x1_0000_0001 * l.sourceInterval
  {
    hide WindowLaw;
    assert Horizon(l) == 0x1_0000_0001 * l.sourceInterval;
    if span < Horizon(l) {
      BelowHorizon(l, start, span);
    } else {
      BeyondHorizon(l, start, span);
    }
  }

  /** Whatever the global burst, the law holds below the horizon. */
  lemma BelowHorizon(l: Limits, start: Instant, span: nat)
    requires LimitsOk(l) && span < Horizon(l)
    ensures WindowLaw(l, start, span)
  {
    forall rs: seq<Request>, ip, t0: Instant, t1: Instant | Monotone(rs) && Within(rs, start, span) && t0 <= t1
      ensures Own(Run(Begin(l, start), rs).log, ip, t0, t1) <= l.sourceBurst + (t1 - t0) / l.sourceInterval + 1
    {
      WindowBound(l, start, rs, ip, t0, t1);
    }
  }

  // ------------------------------------------------- whatever the global burst

  function Slowest(l: Limits): nat { Max(l.sourceInterval, l.globalInterval) }

  /** A span after which both buckets of an idle controller lag through a whole burst. */
  function LongIdle(l: Limits): nat { (l.sourceBurst + 3) * ((U32_MAX + 1) * Slowest(l)) }

  /** One request at the start and `j` after the long idle span, all at one instant. */
  function LateVisits(l: Limits, start: Instant, j: nat): seq<Request> {
    if j == 0 then [Request(IP, start, None)] else LateVisits(l, start, j - 1) + [Request(IP, start + LongIdle(l), None)]
  }

  /** How far a bucket lags behind the instant of the late requests. */
  predicate Lags(l: Limits, b: Bucket, at: Instant, rounds: int) {
    BucketOk(b) && b.burst >= 1 && b.interval <= Slowest(l) && at - b.last >= rounds * ((U32_MAX + 1) * Slowest(l))
  }

  /** A refill of a lagging bucket leaves a token and takes one round of the lag. */
  lemma LagRefill(l: Limits, b: Bucket, at: Instant, rounds: int)
    requires LimitsOk(l) && Lags(l, b, at, rounds) && rounds >= 1
    ensures Refill(b, at).tokens > 0
    ensures Lags(l, Debit(Refill(b, at)), at, rounds - 1)
  {
    var round := (U32_MAX + 1) * Slowest(l);
    var k := Min(Intervals(b, at), U32_MAX);
    MulMonotone(round, 1, rounds);
    MulMonotone(U32_MAX + 1, b.interval, Slowest(l));
    DivMonotone(b.interval, at - b.last, b.interval);
    DivUnique(b.interval, b.interval, 1);
    RefillPhase(b, at);
    MulMonotone(b.interval, k, U32_MAX + 1);
    assert (rounds - 1) * round == rounds * round - round;
  }

  ghost predicate LateState(w: Watch, l: Limits, start: Instant, j: nat) {
    var at := start + LongIdle(l);
    && ControllerOk(w.controller) && w.controller.start == start && w.controller.limits == l
    && IP in w.controller.sources
    && Lags(l, w.controller.sources[IP].bucket, at, l.sourceBurst + 3 - j)
    && Lags(l, w.controller.global, at, l.sourceBurst + 3 - j)
    && Own(w.log, IP, at, at) == j
  }

  lemma FreshLags(l: Limits, start: Instant, tokens: nat, burst: nat, interval: nat)
    requires LimitsOk(l) && tokens <= burst <= 1024 && burst >= 1 && IntervalOk(interval) && interval <= Slowest(l)
    ensures Lags(l, Bucket(tokens, burst, interval, start), start + LongIdle(l), l.sourceBurst + 3)
  {
  }

  lemma IdleIsLong(l: Limits)
    requires LimitsOk(l)
    ensures LongIdle(l) > 0
  {
    MulMonotone(Slowest(l), 1, U32_MAX + 1);
    MulMonotone((U32_MAX + 1) * Slowest(l), 1, l.sourceBurst + 3);
  }

  lemma LateBegins(l: Limits, start: Instant)
    requires LimitsOk(l)
    ensures LateState(Run(Begin(l, start), LateVisits(l, start, 0)), l, start, 0)
  {
    FirstVisit(l, start);
    IdleIsLong(l);
    FreshLags(l, start, l.sourceInitial - 1, l.sourceBurst, l.sourceInterval);
    FreshLags(l, start, l.globalInitial - 1, l.globalBurst, l.globalInterval);
    var at := start + LongIdle(l);
    OwnAppend([], Grant(IP, start, false), IP, at, at);
    assert [] + [Grant(IP, start, false)] == [Grant(IP, start, false)];
    assert LateVisits(l, start, 0) == Visits(l, start, 0);
    hide ControllerOk, Run, Refill, Lags, LongIdle, LimitsOk;
  }

  lemma LateStep(w: Watch, l: Limits, start: Instant, j: nat)
    requires LimitsOk(l) && j <= l.sourceBurst + 1 && LateState(w, l, start, j)
    ensures LateState(Step(w, Request(IP, start + LongIdle(l), None)), l, start, j + 1)
  {
    var at := start + LongIdle(l);
    LagRefill(l, w.controller.sources[IP].bucket, at, l.sourceBurst + 3 - j);
    LagRefill(l, w.controller.global, at, l.sourceBurst + 3 - j);
    OwnAppend(w.log, Grant(IP, at, false), IP, at, at);
    hide ControllerOk, Refill, Lags, LongIdle, LimitsOk;
    Admitted(w, IP, at);
  }

  lemma {:induction false} LateRun(l: Limits, start: Instant, j: nat)
    requires LimitsOk(l) && j <= l.sourceBurst + 2
    ensures LateState(Run(Begin(l, start), LateVisits(l, start, j)), l, start, j)
  {
    hide LateState, LongIdle, LimitsOk, Run, Step;
    if j == 0 {
      LateBegins(l, start);
    } else {
      LateRun(l, start, j - 1);
      LateStep(Run(Begin(l, start), LateVisits(l, start, j - 1)), l, start, j - 1);
      RunSnoc(Begin(l, start), LateVisits(l, start, j - 1), Request(IP, start + LongIdle(l), None));
    }
  }

  lemma {:induction false} LateOrdered(l: Limits, start: Instant, j: nat)
    ensures Monotone(LateVisits(l, start, j)) && Within(LateVisits(l, start, j), start, LongIdle(l))
  {
    hide LongIdle;
    if j > 0 { LateOrdered(l, start, j - 1); }
  }

  lemma LateOwn(w: Watch, l: Limits, start: Instant, j: nat)
    requires LateState(w, l, start, j)
    ensures Own(w.log, IP, start + LongIdle(l), start + LongIdle(l)) == j
  {
  }

  /** Whatever the limits, with however small a global burst, the law fails over every
   *  span from the long idle one on: burst + 2 admissions at a single instant. */
  lemma EveryLimitsFail(l: Limits, start: Instant, span: nat)
    requires LimitsOk(l) && LongIdle(l) <= span
    ensures !WindowLaw(l, start, span)
    ensures var rs, at := LateVisits(l, start, l.sourceBurst + 2), start + LongIdle(l);
            && Monotone(rs) && Within(rs, start, span)
            && Own(Run(Begin(l, start), rs).log, IP, at, at) == l.sourceBurst + 2
  {
    hide *;
    IntervalPositive(l);
    var rs, at := LateVisits(l, start, l.sourceBurst + 2), start + LongIdle(l);
    LateRun(l, start, l.sourceBurst + 2);
    LateOwn(Run(Begin(l, start), rs), l, start, l.sourceBurst + 2);
    LateOrdered(l, start, l.sourceBurst + 2);
    WithinLonger(rs, start, LongIdle(l), span);
    BreaksLaw(l, start, span, rs, at, at);
  }
}
