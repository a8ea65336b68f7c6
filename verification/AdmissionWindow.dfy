/** The bound on one source's admissions in any time window. */
module AdmissionWindow {
  import opened Options
  import opened Arithmetic
  import opened Admission
  import opened AdmissionBounds

  /** From this many nanoseconds on, the 32-bit cap of a refill can be felt. */
  function Horizon(l: Limits): nat { (U32_MAX + 2) * l.sourceInterval }

  // ------------------------------------- accounting for one source and one t0

  /** Whole intervals a capped refill left for the next one. */
  function Pending(l: Limits, s: SourceBucket): int
    requires LimitsOk(l)
  {
    (s.lastSeen - s.bucket.last) / l.sourceInterval
  }

  /** The last instant of the bucket's phase up to its last request. */
  function Phase(l: Limits, s: SourceBucket): int
    requires LimitsOk(l)
  {
    s.bucket.last + Pending(l, s) * l.sourceInterval
  }

  /** No further interval of this phase ends before the horizon. */
  predicate Late(l: Limits, start: Instant, s: SourceBucket)
    requires LimitsOk(l)
  {
    start + Horizon(l) <= Phase(l, s) + l.sourceInterval
  }

  /** Intervals from `t0` to the bucket's phase; -1 when `t0` is just behind it. */
  function Passed(l: Limits, start: Instant, s: SourceBucket, t0: Instant): int
    requires LimitsOk(l)
  {
    var passed := (Phase(l, s) - t0) / l.sourceInterval;
    if Late(l, start, s) then Max(0, passed) else passed
  }

  /** How many admissions `n` since `t0` the bucket of a source, or its absence, can
   *  account for at time `now`. */
  predicate Accounted(l: Limits, start: Instant, e: Option<SourceBucket>, n: nat, t0: Instant, now: Instant)
    requires LimitsOk(l)
  {
    match e
    case None => if t0 > now then n == 0 else n <= (now - t0) / l.sourceInterval + 1
    case Some(s) =>
      && SourceShaped(l, s.bucket)
      && start <= s.bucket.last <= s.lastSeen <= now
      && (Pending(l, s) == 0 || (Pending(l, s) == 1 && Late(l, start, s)))
      && (if t0 > s.lastSeen then n == 0
          else n + s.bucket.tokens + Pending(l, s) <= l.sourceBurst + 1 + Passed(l, start, s, t0))
  }

  lemma TimePasses(l: Limits, start: Instant, e: Option<SourceBucket>, n: nat, t0: Instant, now: Instant, later: Instant)
    requires LimitsOk(l) && Accounted(l, start, e, n, t0, now) && now <= later
    ensures Accounted(l, start, e, n, t0, later)
  {
    if e.None? && t0 <= later {
      DivMonotone(0, later - t0, l.sourceInterval);
      DivUnique(0, l.sourceInterval, 0);
      if t0 <= now { DivMonotone(now - t0, later - t0, l.sourceInterval); }
    }
  }

  lemma PhaseBounds(l: Limits, s: SourceBucket)
    requires LimitsOk(l)
    ensures Phase(l, s) <= s.lastSeen < Phase(l, s) + l.sourceInterval
  {
    DivBounds(s.lastSeen - s.bucket.last, l.sourceInterval);
  }

  /** A source idle long enough to be dropped has no more admissions behind it than
   *  an untracked one may have. */
  lemma DropAccounted(l: Limits, start: Instant, s: SourceBucket, n: nat, t0: Instant, now: Instant)
    requires LimitsOk(l) && Accounted(l, start, Some(s), n, t0, now)
    requires now - s.lastSeen >= l.sourceInterval * l.sourceBurst
    ensures Accounted(l, start, None, n, t0, now)
  {
    var i, burst := l.sourceInterval, l.sourceBurst;
    PhaseBounds(l, s);
    if t0 > s.lastSeen {
      if t0 <= now { DivMonotone(0, now - t0, i); DivUnique(0, i, 0); }
    } else {
      DivMonotone(Phase(l, s) - t0, s.lastSeen - t0, i);
      DivMonotone(0, s.lastSeen - t0, i);
      DivUnique(0, i, 0);
      DivShift(s.lastSeen - t0, i, burst);
      assert burst * i == i * burst;
      DivMonotone(s.lastSeen - t0 + burst * i, now - t0, i);
    }
  }

  /** A dropped or unknown source starts again with at most its burst. */
  lemma FreshAccounted(l: Limits, start: Instant, n: nat, t0: Instant, now: Instant)
    requires LimitsOk(l) && start <= now && Accounted(l, start, None, n, t0, now)
    ensures var b := Bucket(l.sourceInitial, l.sourceBurst, l.sourceInterval, now);
            Accounted(l, start, Some(SourceBucket(b, now)), n, t0, now)
  {
    DivUnique(0, l.sourceInterval, 0);
    if t0 <= now { DivMonotone(0, now - t0, l.sourceInterval); }
  }

  lemma DebitAccounted(l: Limits, start: Instant, s: SourceBucket, n: nat, t0: Instant)
    requires LimitsOk(l) && Accounted(l, start, Some(s), n, t0, s.lastSeen) && s.bucket.tokens > 0
    ensures Accounted(l, start, Some(s.(bucket := Debit(s.bucket))), if t0 <= s.lastSeen then n + 1 else n, t0, s.lastSeen)
  {
  }

  /** The refill of a tracked source keeps the account, capped or not. */
  lemma RefillAccounted(l: Limits, start: Instant, s: SourceBucket, n: nat, t0: Instant, now: Instant)
    requires LimitsOk(l) && Accounted(l, start, Some(s), n, t0, now) && now < start + Horizon(l)
    ensures Accounted(l, start, Some(SourceBucket(Refill(s.bucket, now), now)), n, t0, now)
  {
    PhaseBounds(l, s);
    if Late(l, start, s) {
      LateRefill(l, start, s, n, t0, now);
    } else if Intervals(s.bucket, now) <= U32_MAX {
      UncappedRefill(l, start, s, n, t0, now);
    } else {
      CappedRefill(l, start, s, n, t0, now);
    }
  }

  lemma LateRefill(l: Limits, start: Instant, s: SourceBucket, n: nat, t0: Instant, now: Instant)
    requires LimitsOk(l) && Accounted(l, start, Some(s), n, t0, now) && now < start + Horizon(l)
    requires Late(l, start, s)
    ensures Accounted(l, start, Some(SourceBucket(Refill(s.bucket, now), now)), n, t0, now)
  {
    var i := l.sourceInterval;
    PhaseBounds(l, s);
    DivUnique(now - s.bucket.last, i, Pending(l, s));
    UncappedPhase(s.bucket, now);
    var s2 := SourceBucket(Refill(s.bucket, now), now);
    assert Pending(l, s2) == 0 && Phase(l, s2) == Phase(l, s);
  }

  lemma UncappedRefill(l: Limits, start: Instant, s: SourceBucket, n: nat, t0: Instant, now: Instant)
    requires LimitsOk(l) && Accounted(l, start, Some(s), n, t0, now)
    requires Pending(l, s) == 0 && !Late(l, start, s) && Intervals(s.bucket, now) <= U32_MAX
    ensures Accounted(l, start, Some(SourceBucket(Refill(s.bucket, now), now)), n, t0, now)
  {
    var i, k := l.sourceInterval, Intervals(s.bucket, now);
    UncappedPhase(s.bucket, now);
    var s2 := SourceBucket(Refill(s.bucket, now), now);
    hide Refill, LimitsOk, Intervals;
    assert Pending(l, s2) == 0 && Phase(l, s2) == Phase(l, s) + k * i;
    DivShift(Phase(l, s) - t0, i, k);
    PassedAtLeast(l, start, s2, t0);
    hide Phase;
  }

  /** The phase of a bucket lies less than one interval before its last request. */
  lemma PassedAtLeast(l: Limits, start: Instant, s: SourceBucket, t0: Instant)
    requires LimitsOk(l)
    ensures Passed(l, start, s, t0) >= (Phase(l, s) - t0) / l.sourceInterval
    ensures Late(l, start, s) ==> Passed(l, start, s, t0) >= 0
    ensures t0 <= s.lastSeen ==> Passed(l, start, s, t0) >= -1
  {
    PhaseBounds(l, s);
    if t0 <= s.lastSeen {
      var i: int := l.sourceInterval;
      DivMonotone(-i, Phase(l, s) - t0, i);
      DivUnique(-i, i, -1);
    }
  }

  lemma CappedRefill(l: Limits, start: Instant, s: SourceBucket, n: nat, t0: Instant, now: Instant)
    requires LimitsOk(l) && Accounted(l, start, Some(s), n, t0, now) && now < start + Horizon(l)
    requires Pending(l, s) == 0 && !Late(l, start, s) && Intervals(s.bucket, now) > U32_MAX
    ensures Accounted(l, start, Some(SourceBucket(Refill(s.bucket, now), now)), n, t0, now)
  {
    var i := l.sourceInterval;
    var s2 := SourceBucket(Refill(s.bucket, now), now);
    CappedPhase(l, start, s.bucket, now);
    hide Refill, LimitsOk, Intervals;
    assert Pending(l, s2) == 1 && Phase(l, s2) == Phase(l, s) + (U32_MAX + 1) * i;
    DivShift(Phase(l, s) - t0, i, U32_MAX + 1);
    PassedAtLeast(l, start, s, t0);
    PassedAtLeast(l, start, s2, t0);
    hide Phase;
  }

  /** A capped refill below the horizon fills the bucket and leaves one interval. */
  lemma CappedPhase(l: Limits, start: Instant, b: Bucket, now: Instant)
    requires LimitsOk(l) && SourceShaped(l, b) && start <= b.last && now < start + Horizon(l)
    requires Intervals(b, now) > U32_MAX
    ensures var r := Refill(b, now);
            && r.tokens == l.sourceBurst && r.last == b.last + U32_MAX * l.sourceInterval
            && (now - r.last) / l.sourceInterval == 1
  {
    var i := l.sourceInterval;
    DivBounds(now - b.last, i);
    MulMonotone(i, U32_MAX + 1, Intervals(b, now));
    RefillPhase(b, now);
    DivUnique(now - Refill(b, now).last, i, 1);
  }

  // -------------------------------------------------------- one whole request

  function Entry(c: Controller, ip: IpAddr): Option<SourceBucket> {
    if ip in c.sources then Some(c.sources[ip]) else None
  }

  /** The account of one source and one `t0` after a run. */
  ghost predicate Account(w: Watch, l: Limits, start: Instant, ip: IpAddr, t0: Instant, now: Instant) {
    && LimitsOk(l) && ControllerOk(w.controller) && w.controller.limits == l && w.controller.start == start
    && Accounted(l, start, Entry(w.controller, ip), Own(w.log, ip, t0, now), t0, now)
  }

  /** What a request does to the entry of its own source. */
  lemma OwnEntry(c: Controller, ip: IpAddr, now: Instant, evicted: Option<IpAddr>)
    requires ControllerOk(c) && MayEvict(c, ip, now, evicted) && c.start <= now
    ensures var (d, decision) := Admit(c, ip, now, evicted);
            var overflow := Select(Evict(c, evicted), ip).Overflow?;
            match Entry(c, ip)
            case Some(s) =>
              var b := Refill(s.bucket, now);
              && !overflow
              && (decision.Allowed? ==> b.tokens > 0)
              && Entry(d, ip) == Some(SourceBucket(if decision.Allowed? then Debit(b) else b, Max(s.lastSeen, now)))
            case None =>
              if decision.Allowed? && !overflow
              then Entry(d, ip) == Some(SourceBucket(
                Debit(Bucket(c.limits.sourceInitial, c.limits.sourceBurst, c.limits.sourceInterval, now)), now))
              else Entry(d, ip) == None
  {
    hide ControllerOk, Refill;
    EvictOk(c, evicted);
    InitialTokens(c);
  }

  lemma InitialTokens(c: Controller)
    requires ControllerOk(c)
    ensures c.limits.sourceInitial > 0
  {
  }

  /** What a request does to the entry of any other source. */
  lemma OtherEntry(c: Controller, ip: IpAddr, now: Instant, evicted: Option<IpAddr>, other: IpAddr)
    requires ControllerOk(c) && MayEvict(c, ip, now, evicted) && other != ip
    ensures var d := Admit(c, ip, now, evicted).0;
            if Some(other) == evicted
            then Entry(d, other) == None && Stale(c, other, now)
            else Entry(d, other) == Entry(c, other)
  {
    OthersKept(c, ip, now, evicted, other);
    hide Admit, ControllerOk, Stale;
  }

  lemma OwnLater(log: seq<Grant>, ip: IpAddr, t0: Instant, t1: Instant, t2: Instant)
    requires t1 <= t2 && forall i :: 0 <= i < |log| ==> log[i].at <= t1
    ensures Own(log, ip, t0, t2) == Own(log, ip, t0, t1)
  {
  }

  lemma OwnAppend(log: seq<Grant>, g: Grant, ip: IpAddr, t0: Instant, t1: Instant)
    ensures Own(log + [g], ip, t0, t1) ==
            Own(log, ip, t0, t1) + (if g.ip == ip && !g.overflow && t0 <= g.at <= t1 then 1 else 0)
  {
    assert (log + [g])[..|log|] == log;
  }

  lemma OwnStep(w: Watch, l: Limits, start: Instant, r: Request, t0: Instant, now: Instant)
    requires Account(w, l, start, r.ip, t0, now) && now <= r.now < start + Horizon(l) && start <= r.now
    requires MayEvict(w.controller, r.ip, r.now, r.evicted)
    requires forall i :: 0 <= i < |w.log| ==> w.log[i].at <= now
    ensures var d := Step(w, r);
            Accounted(l, start, Entry(d.controller, r.ip), Own(d.log, r.ip, t0, r.now), t0, r.now)
  {
    var c := w.controller;
    var n := Own(w.log, r.ip, t0, now);
    var e := Entry(c, r.ip);
    OwnEntry(c, r.ip, r.now, r.evicted);
    OwnLater(w.log, r.ip, t0, now, r.now);
    TimePasses(l, start, e, n, t0, now, r.now);
    OwnAppend(w.log, Grant(r.ip, r.now, Select(Evict(c, r.evicted), r.ip).Overflow?), r.ip, t0, r.now);
    hide Admit, Evict, ControllerOk, Accounted, MayEvict, Refill;
    match e {
      case Some(s) =>
        var s2 := SourceBucket(Refill(s.bucket, r.now), r.now);
        SeenBefore(l, start, s, n, t0, now);
        RefillAccounted(l, start, s, n, t0, r.now);
        if s2.bucket.tokens > 0 { DebitAccounted(l, start, s2, n, t0); }
      case None =>
        var created := SourceBucket(Bucket(l.sourceInitial, l.sourceBurst, l.sourceInterval, r.now), r.now);
        FreshAccounted(l, start, n, t0, r.now);
        DebitAccounted(l, start, created, n, t0);
    }
  }

  lemma SeenBefore(l: Limits, start: Instant, s: SourceBucket, n: nat, t0: Instant, now: Instant)
    requires LimitsOk(l) && Accounted(l, start, Some(s), n, t0, now)
    ensures s.lastSeen <= now && SourceShaped(l, s.bucket)
  {
  }

  lemma OtherStep(w: Watch, l: Limits, start: Instant, r: Request, ip: IpAddr, t0: Instant, now: Instant)
    requires Account(w, l, start, ip, t0, now) && now <= r.now && ip != r.ip
    requires MayEvict(w.controller, r.ip, r.now, r.evicted)
    requires forall i :: 0 <= i < |w.log| ==> w.log[i].at <= now
    ensures var d := Step(w, r);
            Accounted(l, start, Entry(d.controller, ip), Own(d.log, ip, t0, r.now), t0, r.now)
  {
    var c := w.controller;
    var n := Own(w.log, ip, t0, now);
    OtherEntry(c, r.ip, r.now, r.evicted, ip);
    OwnLater(w.log, ip, t0, now, r.now);
    TimePasses(l, start, Entry(c, ip), n, t0, now, r.now);
    OwnAppend(w.log, Grant(r.ip, r.now, Select(Evict(c, r.evicted), r.ip).Overflow?), ip, t0, r.now);
    if Some(ip) == r.evicted { DropAccounted(l, start, c.sources[ip], n, t0, r.now); }
  }

  /** The account holds after every run below the horizon on a monotone clock. */
  lemma {:induction false} RunAccount(
    l: Limits, start: Instant, rs: seq<Request>, ip: IpAddr, t0: Instant, now: Instant)
    requires LimitsOk(l) && Monotone(rs) && start <= now < start + Horizon(l)
    requires forall i :: 0 <= i < |rs| ==> rs[i].now <= now
    ensures Account(Run(Begin(l, start), rs), l, start, ip, t0, now)
    ensures LogWithin(Run(Begin(l, start), rs).log, now)
  {
    if rs == [] {
      DivUnique(0, l.sourceInterval, 0);
      if t0 <= now { DivMonotone(0, now - t0, l.sourceInterval); }
    } else {
      var before, r := rs[..|rs| - 1], rs[|rs| - 1];
      var w := Run(Begin(l, start), before);
      assert forall i :: 0 <= i < |before| ==> before[i] == rs[i];
      if start <= r.now {
        RunAccount(l, start, before, ip, t0, r.now);
        StepAccount(w, l, start, r, ip, t0);
        AccountLater(Step(w, r), l, start, ip, t0, r.now, now);
      } else {
        RunAccount(l, start, before, ip, t0, now);
      }
    }
  }

  ghost predicate LogWithin(log: seq<Grant>, now: Instant) {
    forall i :: 0 <= i < |log| ==> log[i].at <= now
  }

  lemma StepAccount(w: Watch, l: Limits, start: Instant, r: Request, ip: IpAddr, t0: Instant)
    requires Account(w, l, start, ip, t0, r.now) && LogWithin(w.log, r.now)
    requires start <= r.now < start + Horizon(l)
    ensures Account(Step(w, r), l, start, ip, t0, r.now) && LogWithin(Step(w, r).log, r.now)
  {
    hide Accounted, Own, Refill, Entry, Admit, MayEvict, ControllerOk, LimitsOk, Evict;
    if MayEvict(w.controller, r.ip, r.now, r.evicted) {
      AdmitKeeps(w.controller, r.ip, r.now, r.evicted);
      if ip == r.ip {
        OwnStep(w, l, start, r, t0, r.now);
      } else {
        OtherStep(w, l, start, r, ip, t0, r.now);
      }
    }
  }

  lemma AccountLater(w: Watch, l: Limits, start: Instant, ip: IpAddr, t0: Instant, now: Instant, later: Instant)
    requires Account(w, l, start, ip, t0, now) && LogWithin(w.log, now) && now <= later
    ensures Account(w, l, start, ip, t0, later) && LogWithin(w.log, later)
  {
    OwnLater(w.log, ip, t0, now, later);
    TimePasses(l, start, Entry(w.controller, ip), Own(w.log, ip, t0, now), t0, now, later);
  }

  lemma AccountBound(w: Watch, l: Limits, start: Instant, ip: IpAddr, t0: Instant, now: Instant)
    requires Account(w, l, start, ip, t0, now) && t0 <= now
    ensures Own(w.log, ip, t0, now) <= l.sourceBurst + (now - t0) / l.sourceInterval + 1
  {
    DivMonotone(0, now - t0, l.sourceInterval);
    DivUnique(0, l.sourceInterval, 0);
    if ip in w.controller.sources {
      var s := w.controller.sources[ip];
      PhaseBounds(l, s);
      DivMonotone(Phase(l, s) - t0, now - t0, l.sourceInterval);
    }
  }

  predicate Before(rs: seq<Request>, end: Instant) {
    forall i :: 0 <= i < |rs| ==> rs[i].now < end
  }

  lemma PrefixOf(rs: seq<Request>, end: Instant)
    requires rs != [] && Monotone(rs) && Before(rs, end)
    ensures Monotone(rs[..|rs| - 1]) && Before(rs[..|rs| - 1], end)
    ensures forall i :: 0 <= i < |rs| ==> rs[i].now <= rs[|rs| - 1].now
  {
  }

  lemma AccountBoundLater(w: Watch, l: Limits, start: Instant, ip: IpAddr, t0: Instant, now: Instant, t1: Instant)
    requires Account(w, l, start, ip, t0, now) && LogWithin(w.log, now) && t0 <= now <= t1
    ensures Own(w.log, ip, t0, t1) <= l.sourceBurst + (t1 - t0) / l.sourceInterval + 1
  {
    AccountLater(w, l, start, ip, t0, now, t1);
    AccountBound(w, l, start, ip, t0, t1);
  }

  lemma InsideWindow(l: Limits, start: Instant, rs: seq<Request>, ip: IpAddr, t0: Instant, t1: Instant, now: Instant)
    requires LimitsOk(l) && Monotone(rs) && start <= now < start + Horizon(l) && t0 <= now <= t1
    requires forall i :: 0 <= i < |rs| ==> rs[i].now <= now
    ensures Own(Run(Begin(l, start), rs).log, ip, t0, t1) <= l.sourceBurst + (t1 - t0) / l.sourceInterval + 1
  {
    hide Account, Run, Begin, LimitsOk, Own, Monotone, Horizon, LogWithin;
    RunAccount(l, start, rs, ip, t0, now);
    AccountBoundLater(Run(Begin(l, start), rs), l, start, ip, t0, now, t1);
  }

  lemma OutsideWindow(w: Watch, r: Request, ip: IpAddr, t0: Instant, t1: Instant)
    requires r.now < t0 || t1 < r.now || r.now < w.controller.start
    ensures Own(Step(w, r).log, ip, t0, t1) == Own(w.log, ip, t0, t1)
  {
    OwnAppend(w.log, Grant(r.ip, r.now, Select(Evict(w.controller, r.evicted), r.ip).Overflow?), ip, t0, t1);
  }

  lemma {:induction false} StartKept(l: Limits, start: Instant, rs: seq<Request>)
    requires LimitsOk(l)
    ensures Run(Begin(l, start), rs).controller.start == start
  {
    Conservation(l, start, rs, start);
  }

  /** On a monotone clock below the horizon, a source's admissions through its own
   *  bucket in a window never exceed its burst, one for each whole interval of the
   *  window, and one; however often the source is dropped and comes back. */
  lemma {:induction false} WindowBound(
    l: Limits, start: Instant, rs: seq<Request>, ip: IpAddr, t0: Instant, t1: Instant)
    requires LimitsOk(l) && Monotone(rs) && t0 <= t1 && Before(rs, start + Horizon(l))
    ensures Own(Run(Begin(l, start), rs).log, ip, t0, t1) <= l.sourceBurst + (t1 - t0) / l.sourceInterval + 1
  {
    hide Horizon, Step, Begin, LimitsOk;
    if rs == [] {
      NothingYet(l, start, ip, t0, t1);
    } else {
      var before, r := rs[..|rs| - 1], rs[|rs| - 1];
      PrefixOf(rs, start + Horizon(l));
      if start <= r.now <= t1 && t0 <= r.now {
        InsideWindow(l, start, rs, ip, t0, t1, r.now);
      } else {
        WindowBound(l, start, before, ip, t0, t1);
        StartKept(l, start, before);
        OutsideWindow(Run(Begin(l, start), before), r, ip, t0, t1);
      }
    }
  }

  lemma NothingYet(l: Limits, start: Instant, ip: IpAddr, t0: Instant, t1: Instant)
    requires LimitsOk(l) && t0 <= t1
    ensures Own(Run(Begin(l, start), []).log, ip, t0, t1) <= l.sourceBurst + (t1 - t0) / l.sourceInterval + 1
  {
    DivMonotone(0, t1 - t0, l.sourceInterval);
    DivUnique(0, l.sourceInterval, 0);
  }
}
