/** The independent compliance verifier (app/core/verifier.py): the loops over the audit trail, each
    proved to report exactly the violations its rule names. */
module Verifier {
  import opened Models
  import opened PeakWindows
  import opened TrailMonitor

  datatype Check =
    | EmptyAudit | MaxRetries | NoticeLeadTime | RetrySpacing | PeakHourBlackout | AfaCeiling
    | BucketImmutability | ThrottleNeutrality

  datatype Verdict = Verdict(check: Check, passed: bool)

  const FALLBACK_CEILING: int := 1_500_000

  // ---- The rules, as statements about the trail ---------------------------------------------------

  predicate PeakViolated(trail: seq<AuditEntry>, cfg: Config) {
    exists e :: e in trail && !OffPeak(e, cfg)
  }

  function DefaultCeiling(cfg: Config): int {
    if "default" in cfg.ceilings then cfg.ceilings["default"] else FALLBACK_CEILING
  }

  predicate IsRetryEntry(e: AuditEntry) { e.to == RetryScheduled || e.to == RetryExecuted }

  predicate AfaViolated(rec: CaseRecord, trail: seq<AuditEntry>, cfg: Config) {
    && rec.bucket == Some(TreatmentBucket)
    && rec.originalAmount > DefaultCeiling(cfg)
    && exists e :: e in trail && IsRetryEntry(e)
  }

  predicate BucketsConflict(trail: seq<AuditEntry>) {
    SomeAssigns(trail, TreatmentBucket) && SomeAssigns(trail, ControlBucket)
  }

  ghost predicate NoticeUnanswered(trail: seq<AuditEntry>) {
    (exists i :: NoticeOpen(trail, i)) && (exists i, j :: NoticeServed(trail, i, j))
  }

  ghost predicate Complies(rec: CaseRecord, trail: seq<AuditEntry>, cfg: Config)
    requires |cfg.retrySpacing| > 0
  {
    && trail != []
    && rec.retriesUsed <= cfg.maxRetries
    && !NoticeViolated(trail, cfg.noticeLead)
    && !SpacingViolated(trail, cfg)
    && !PeakViolated(trail, cfg)
    && !AfaViolated(rec, trail, cfg)
    && !BucketsConflict(trail)
  }

  /** What the verifier must report. The notice check stays silent when some notice was served in time
      and a later one is still unanswered. */
  ghost function Report(rec: CaseRecord, trail: seq<AuditEntry>, cfg: Config): seq<Verdict>
    requires |cfg.retrySpacing| > 0
  {
    if trail == [] then [Verdict(EmptyAudit, false)]
    else
      Assemble(rec.retriesUsed <= cfg.maxRetries, NoticeReport(trail, cfg.noticeLead),
               !SpacingViolated(trail, cfg), !PeakViolated(trail, cfg), !AfaViolated(rec, trail, cfg),
               !BucketsConflict(trail))
  }

  function Assemble(cap: bool, notice: seq<Verdict>, spacing: bool, peak: bool, afa: bool, buckets: bool)
    : seq<Verdict>
  {
    [Verdict(MaxRetries, cap)] + notice +
    [Verdict(RetrySpacing, spacing), Verdict(PeakHourBlackout, peak), Verdict(AfaCeiling, afa),
     Verdict(BucketImmutability, buckets), Verdict(ThrottleNeutrality, true)]
  }

  ghost function NoticeReport(trail: seq<AuditEntry>, lead: Duration): seq<Verdict> {
    if NoticeViolated(trail, lead) then [Verdict(NoticeLeadTime, false)]
    else if NoticeUnanswered(trail) then []
    else [Verdict(NoticeLeadTime, true)]
  }

  /** The notice check fails exactly if a notice was executed too soon, is silent exactly if it does not fail and
      one notice was served while another is open, and passes otherwise. */
  lemma NoticeVerdictExactly(trail: seq<AuditEntry>, lead: Duration)
    ensures var results := NoticeReport(trail, lead);
            var served := exists i, j :: NoticeServed(trail, i, j);
            var open := exists i :: NoticeOpen(trail, i);
            var tooSoon := exists i, j :: NoticeServed(trail, i, j) && trail[j].timestamp - trail[i].timestamp < lead;
            && (results == [Verdict(NoticeLeadTime, false)] <==> tooSoon)
            && (results == [] <==> !tooSoon && served && open)
            && (results == [Verdict(NoticeLeadTime, true)] <==> !tooSoon && !(served && open))
  {
  }

  predicate AllPassed(results: seq<Verdict>) {
    forall i :: 0 <= i < |results| ==> results[i].passed
  }

  /** The blackout rule spelled out: no retry entry is stamped in a window, and no slot lies in one. */
  lemma PeakRuleExactly(trail: seq<AuditEntry>, cfg: Config)
    ensures PeakViolated(trail, cfg) <==>
            exists e :: e in trail &&
              (if e.to == RetryScheduled && e.scheduledAt.Some?
               then InPeak(cfg.peakWindows, e.timestamp) || InPeak(cfg.peakWindows, e.scheduledAt.value)
               else IsRetryEntry(e) && InPeak(cfg.peakWindows, e.timestamp))
  {
  }

  /** The amount rule spelled out: it reads the default ceiling alone, and 15 000 rupees if there is none. */
  lemma AfaRuleExactly(rec: CaseRecord, trail: seq<AuditEntry>, cfg: Config)
    ensures AfaViolated(rec, trail, cfg) <==>
            && rec.bucket == Some(TreatmentBucket)
            && rec.originalAmount > (if "default" in cfg.ceilings then cfg.ceilings["default"] else 1_500_000)
            && exists e :: e in trail && (e.to == RetryScheduled || e.to == RetryExecuted)
  {
  }

  lemma AssembledPasses(cap: bool, notice: seq<Verdict>, spacing: bool, peak: bool, afa: bool, buckets: bool)
    ensures AllPassed(Assemble(cap, notice, spacing, peak, afa, buckets)) <==>
            cap && AllPassed(notice) && spacing && peak && afa && buckets
  {
    var results, k := Assemble(cap, notice, spacing, peak, afa, buckets), |notice|;
    assert forall i :: 0 <= i < k ==> results[1 + i] == notice[i];
    assert results[0].passed == cap && results[1 + k].passed == spacing && results[2 + k].passed == peak;
    assert results[3 + k].passed == afa && results[4 + k].passed == buckets;
  }

  /** Every verdict passes exactly when the trail complies. */
  lemma ReportIsExact(rec: CaseRecord, trail: seq<AuditEntry>, cfg: Config)
    requires |cfg.retrySpacing| > 0
    ensures AllPassed(Report(rec, trail, cfg)) <==> Complies(rec, trail, cfg)
  {
    if trail != [] {
      var notice := NoticeReport(trail, cfg.noticeLead);
      assert AllPassed(notice) <==> !NoticeViolated(trail, cfg.noticeLead) by {
        if NoticeViolated(trail, cfg.noticeLead) {
          assert !notice[0].passed;
        }
      }
      AssembledPasses(rec.retriesUsed <= cfg.maxRetries, notice, !SpacingViolated(trail, cfg),
                      !PeakViolated(trail, cfg), !AfaViolated(rec, trail, cfg), !BucketsConflict(trail));
    } else {
      assert !Report(rec, trail, cfg)[0].passed;
    }
  }

  lemma AssembledOnce(cap: bool, notice: seq<Verdict>, spacing: bool, peak: bool, afa: bool, buckets: bool,
                      i: int, j: int)
    requires |notice| <= 1 && (|notice| == 1 ==> notice[0].check == NoticeLeadTime)
    requires var results := Assemble(cap, notice, spacing, peak, afa, buckets);
             0 <= i < |results| && 0 <= j < |results| && results[i].check == results[j].check
    ensures i == j
  {
  }

  /** No rule is ever reported twice, so none both passed and failed. */
  lemma NoRuleBothWays(rec: CaseRecord, trail: seq<AuditEntry>, cfg: Config, results: seq<Verdict>, i: int, j: int)
    requires |cfg.retrySpacing| > 0 && results == Report(rec, trail, cfg)
    requires 0 <= i < |results| && 0 <= j < |results| && results[i].check == results[j].check
    ensures i == j
  {
    if trail == [] {
    } else {
      AssembledOnce(rec.retriesUsed <= cfg.maxRetries, NoticeReport(trail, cfg.noticeLead),
                    !SpacingViolated(trail, cfg), !PeakViolated(trail, cfg), !AfaViolated(rec, trail, cfg),
                    !BucketsConflict(trail), i, j);
    }
  }

  // ---- The loops ----------------------------------------------------------------------------------

  predicate NoticeMark(e: AuditEntry) { e.to == NoticeSent || e.to == RetryExecuted }

  /** mark is the last entry before n of either kind, or -1. */
  predicate LastMark(trail: seq<AuditEntry>, n: int, mark: int) {
    && -1 <= mark < n <= |trail|
    && (mark >= 0 ==> NoticeMark(trail[mark]))
    && forall k :: mark < k < n ==> !NoticeMark(trail[k])
  }

  lemma ServedFromMark(trail: seq<AuditEntry>, n: int, mark: int)
    requires 0 <= n < |trail| && LastMark(trail, n, mark)
    ensures forall i :: NoticeServed(trail, i, n) <==>
              i == mark && mark >= 0 && trail[mark].to == NoticeSent && trail[n].to == RetryExecuted
  {
    forall i | NoticeServed(trail, i, n) ensures i == mark {
      assert NoticeMark(trail[i]);
    }
  }

  ghost predicate ServedBefore(trail: seq<AuditEntry>, n: int) {
    exists i, j :: NoticeServed(trail, i, j) && j < n
  }

  ghost predicate TimelyBefore(trail: seq<AuditEntry>, n: int, lead: Duration) {
    forall i, j :: NoticeServed(trail, i, j) && j < n ==> trail[j].timestamp - trail[i].timestamp >= lead
  }

  method CheckNotice(trail: seq<AuditEntry>, lead: Duration) returns (results: seq<Verdict>)
    ensures results == NoticeReport(trail, lead)
  {
    var lastNotice: Option<int> := None;
    var found := false;
    ghost var mark := -1;
    var n := 0;
    while n < |trail|
      invariant 0 <= n <= |trail| && LastMark(trail, n, mark)
      invariant lastNotice == if mark >= 0 && trail[mark].to == NoticeSent then Some(mark) else None
      invariant TimelyBefore(trail, n, lead)
      invariant found <==> ServedBefore(trail, n)
    {
      ServedFromMark(trail, n, mark);
      var entry := trail[n];
      if entry.to == NoticeSent {
        lastNotice := Some(n);
      } else if entry.to == RetryExecuted && lastNotice.Some? {
        assert NoticeServed(trail, lastNotice.value, n);
        found := true;
        if entry.timestamp - trail[lastNotice.value].timestamp < lead {
          return [Verdict(NoticeLeadTime, false)];
        }
        lastNotice := None;
      }
      mark := if NoticeMark(entry) then n else mark;
      n := n + 1;
    }
    assert TimelyBefore(trail, n, lead) ==> !NoticeViolated(trail, lead);
    assert found <==> exists i, j :: NoticeServed(trail, i, j);
    assert lastNotice.Some? ==> NoticeOpen(trail, mark);
    assert forall i :: NoticeOpen(trail, i) ==> NoticeMark(trail[i]) && i == mark;
    if lastNotice.None? || !found {
      return [Verdict(NoticeLeadTime, true)];
    }
    return [];
  }

  method CheckSpacing(trail: seq<AuditEntry>, cfg: Config) returns (passed: bool)
    requires |cfg.retrySpacing| > 0
    ensures passed <==> !SpacingViolated(trail, cfg)
    ensures passed <==> !SomeGapTooShort(ExecutionTimes(trail), cfg.retrySpacing)
  {
    SpacingRuleExactly(trail, cfg);
    var executedTimes := ExecutionTimes(trail);
    var i := 1;
    while i < |executedTimes|
      invariant 1 <= i
      invariant forall k :: k < i ==> !SpacingBroken(executedTimes, cfg, k)
    {
      var required := SpacingFor(cfg, i);
      if executedTimes[i] - executedTimes[i - 1] < required {
        assert SpacingBroken(executedTimes, cfg, i);
        return false;
      }
      i := i + 1;
    }
    return true;
  }

  method InsideSomeWindow(t: Instant, windows: seq<PeakWindow>) returns (inside: bool)
    ensures inside <==> InPeak(windows, t)
  {
    var w := 0;
    while w < |windows|
      invariant 0 <= w <= |windows|
      invariant forall k :: 0 <= k < w ==> !InWindow(windows[k], t)
    {
      if InWindow(windows[w], t) {
        return true;
      }
      w := w + 1;
    }
    return false;
  }

  method CheckPeak(trail: seq<AuditEntry>, cfg: Config) returns (peakViolation: bool)
    ensures peakViolation <==> PeakViolated(trail, cfg)
  {
    var n := 0;
    while n < |trail|
      invariant 0 <= n <= |trail|
      invariant forall k :: 0 <= k < n ==> OffPeak(trail[k], cfg)
    {
      var entry := trail[n];
      if IsRetryEntry(entry) {
        peakViolation := InsideSomeWindow(entry.timestamp, cfg.peakWindows);
        if !peakViolation && entry.to == RetryScheduled && entry.scheduledAt.Some? {
          peakViolation := InsideSomeWindow(entry.scheduledAt.value, cfg.peakWindows);
        }
        if peakViolation {
          assert !OffPeak(entry, cfg);
          return true;
        }
      }
      n := n + 1;
    }
    return false;
  }

  lemma TwoBuckets(seen: set<Bucket>)
    ensures |seen| > 1 <==> TreatmentBucket in seen && ControlBucket in seen
  {
    if TreatmentBucket in seen && ControlBucket in seen {
      assert {TreatmentBucket, ControlBucket} <= seen;
      assert |seen - {TreatmentBucket, ControlBucket}| == |seen| - 2;
    } else if b :| b in seen {
      forall c | c in seen ensures c == b {
        assert c == TreatmentBucket || c == ControlBucket;
        assert b == TreatmentBucket || b == ControlBucket;
      }
      assert seen == {b};
    }
  }

  method CheckBuckets(trail: seq<AuditEntry>) returns (passed: bool)
    ensures passed <==> !BucketsConflict(trail)
  {
    var bucketsSeen: set<Bucket> := {};
    var n := 0;
    while n < |trail|
      invariant 0 <= n <= |trail|
      invariant forall b :: b in bucketsSeen <==> exists k :: 0 <= k < n && Assigns(trail[k], b)
    {
      var rule := trail[n].rule;
      if rule == AssignBucketTreatment {
        bucketsSeen := bucketsSeen + {TreatmentBucket};
      } else if rule == AssignBucketControl {
        bucketsSeen := bucketsSeen + {ControlBucket};
      }
      n := n + 1;
    }
    TwoBuckets(bucketsSeen);
    return |bucketsSeen| <= 1;
  }

  method VerifyCaseCompliance(rec: CaseRecord, trail: seq<AuditEntry>, cfg: Config) returns (results: seq<Verdict>)
    requires |cfg.retrySpacing| > 0
    ensures results == Report(rec, trail, cfg)
    ensures AllPassed(results) <==> Complies(rec, trail, cfg)
  {
    ReportIsExact(rec, trail, cfg);
    results := [];
    if trail == [] {
      return [Verdict(EmptyAudit, false)];
    }
    results := [Verdict(MaxRetries, !(rec.retriesUsed > cfg.maxRetries))];
    var notice := CheckNotice(trail, cfg.noticeLead);
    results := results + notice;
    var spacing := CheckSpacing(trail, cfg);
    var peakViolation := CheckPeak(trail, cfg);
    var afa := true;
    if rec.bucket == Some(TreatmentBucket) && rec.originalAmount > DefaultCeiling(cfg) {
      afa := !(exists e :: e in trail && IsRetryEntry(e));
    }
    var buckets := CheckBuckets(trail);
    results := results +
      [Verdict(RetrySpacing, spacing), Verdict(PeakHourBlackout, !peakViolation), Verdict(AfaCeiling, afa),
       Verdict(BucketImmutability, buckets), Verdict(ThrottleNeutrality, true)];
  }
}
