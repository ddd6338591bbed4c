/** The shared vocabulary of the recovery agent: cases, decisions, audit entries and configuration
    (app/models.py, app/core/config.py), and the clock (app/core/clock.py). */
module Models {
  datatype Option<+T> = None | Some(value: T)

  type CaseId = string
  /** UTC microseconds since the epoch. */
  type Instant = int
  type Duration = int

  const MINUTE: int := 60_000_000
  const HOUR: int := 3_600_000_000
  const DAY: int := 86_400_000_000
  /** Asia/Kolkata keeps a fixed offset of five and a half hours. */
  const IST_OFFSET: int := 19_800_000_000

  /** Microseconds since local midnight in India. */
  function IstTime(t: Instant): (r: int)
    ensures 0 <= r < DAY
  {
    (t + IST_OFFSET) % DAY
  }

  datatype State =
    | Received | Classified | Treatment | NoticePending | NoticeSent | RetryScheduled | Throttled
    | RetryExecuted | RetryEval | Recovered | RecoveredNaturally | Escalated | AfaRequired
    | ResolvedByHuman | ControlHeld | ControlRecovered | ControlStillFailed

  datatype Bucket = TreatmentBucket | ControlBucket
  datatype ControlOutcome = Unknown | RecoveredWithoutAgent | StillFailed
  datatype ResolutionNote = WrittenOff | RecoveredManually
  datatype Actor = Agent | Human

  /** The rule an audit entry cites (`rule_fired`). */
  datatype Rule =
    | CreateCase | AssignBucketTreatment | AssignBucketControl | HardDecline | AfaThresholdExceeded
    | TechnicalDecline | ControlFailureSignal | UnexpectedFailureEvent | ExecutionOutcome
    | RetryCapOrBusiness | TechnicalDeclineRetryEligible | NoticeSentRule | ScheduleRetry
    | CommitApproved | CommitEffectApplied | ThrottleApplied | ThrottleReleased | AmountMismatch
    | UnexpectedSuccessEvent | NaturalRecovery | NaturalRecoveryTreatment | AgentRecovered
    | LateSuccessReconciled | DistressSignal | HumanResolution

  datatype CaseRecord = CaseRecord(
    caseId: CaseId,
    mandateId: string,
    instrumentId: string,
    originalAmount: int,
    openedAt: Instant,
    retriesUsed: nat,
    state: State,
    bucket: Option<Bucket>,
    controlOutcome: Option<ControlOutcome>,
    controlDeadline: Option<Instant>,
    resolutionNote: Option<ResolutionNote>)

  /** An attempt of a case, as the commit log keys it. */
  type Key = (CaseId, nat)

  type AttemptNumber = n: int | 1 <= n witness 1

  datatype RetryDecision = RetryDecision(
    caseId: CaseId,
    attemptNumber: AttemptNumber,
    scheduledAt: Instant,
    executedAt: Option<Instant>)

  /** An entry as its producer builds it; the store adds sequence id and hashes. */
  datatype AuditEntry = AuditEntry(
    caseId: CaseId,
    from: State,
    to: State,
    rule: Rule,
    ruleVersion: nat,
    timestamp: Instant,
    actor: Actor,
    scheduledAt: Option<Instant>)

  /** Minutes after local midnight, as the "HH:MM" pattern of the configuration allows. */
  type ClockMinute = m: int | 0 <= m < 1440

  datatype PeakWindow = PeakWindow(start: ClockMinute, end: ClockMinute)

  datatype Config = Config(
    maxRetries: int,
    noticeLead: Duration,
    peakWindows: seq<PeakWindow>,
    ceilings: map<string, int>,
    retrySpacing: seq<Duration>,
    maxScheduleWindow: Duration,
    controlWindow: Duration)

  /** What the loader guarantees, and the two lookups every consumer makes without a guard:
      the default ceiling and some spacing. */
  predicate ValidConfig(cfg: Config) {
    && 0 <= cfg.noticeLead
    && 0 <= cfg.maxScheduleWindow
    && 0 <= cfg.controlWindow
    && |cfg.retrySpacing| > 0
    && (forall i :: 0 <= i < |cfg.retrySpacing| ==> 0 <= cfg.retrySpacing[i])
    && "default" in cfg.ceilings
  }

  /** config/npci_rules.yaml as shipped. */
  const SHIPPED: Config := Config(
    3, 24 * HOUR, [PeakWindow(600, 780), PeakWindow(1020, 1290)],
    map["default" := 1_500_000, "insurance" := 10_000_000, "mutual_fund" := 10_000_000,
        "credit_card_bill" := 10_000_000],
    [0, 72 * HOUR, 168 * HOUR], 48 * HOUR, 72 * HOUR)

  function SpacingFor(cfg: Config, attempt: nat): Duration
    requires |cfg.retrySpacing| > 0
  {
    var last := |cfg.retrySpacing| - 1;
    cfg.retrySpacing[if attempt < last then attempt else last]
  }

  /** The listed spacing, or the last of the list past its end. */
  lemma SpacingIsListed(cfg: Config, attempt: nat)
    requires |cfg.retrySpacing| > 0
    ensures attempt < |cfg.retrySpacing| ==> SpacingFor(cfg, attempt) == cfg.retrySpacing[attempt]
    ensures attempt >= |cfg.retrySpacing| ==> SpacingFor(cfg, attempt) == cfg.retrySpacing[|cfg.retrySpacing| - 1]
  {
  }

  function CeilingFor(cfg: Config, category: string): int
    requires ValidConfig(cfg)
  {
    if category in cfg.ceilings then cfg.ceilings[category] else cfg.ceilings["default"]
  }

  type TimeScale = k: int | 1 <= k witness 1

  datatype Clock = RealClock | AcceleratedClock(timeScale: TimeScale)

  /** Division of a non-negative duration, rounded half to even as Python's timedelta does. */
  function DivideRounded(d: Duration, k: TimeScale): Duration
    requires 0 <= d
  {
    var q, r := d / k, d % k;
    if 2 * r > k || (2 * r == k && q % 2 == 1) then q + 1 else q
  }

  /** `resolve_delay`: a negative delay would raise, so it is a precondition every caller must meet. */
  function ResolveDelay(clock: Clock, d: Duration): (r: Duration)
    requires 0 <= d
    ensures 0 <= r <= d
    ensures clock.RealClock? ==> r == d
    ensures d == 0 ==> r == 0
  {
    match clock
    case RealClock => d
    case AcceleratedClock(k) => DivideBounded(d, k); DivideRounded(d, k)
  }

  lemma DivideBounded(d: Duration, k: TimeScale)
    requires 0 <= d
    ensures 0 <= DivideRounded(d, k) <= d
    ensures d == 0 ==> DivideRounded(d, k) == 0
  {
    MulGrows(d / k, k);
  }

  /** Twice the distance of d from q times k. */
  function TwiceOff(d: Duration, q: int, k: int): int { 2 * (d - q * k) }

  /** A scaled delay is the nearest whole number of microseconds, and the even one of two. */
  lemma ScalesToNearest(d: Duration, k: TimeScale)
    requires 0 <= d
    ensures var q := ResolveDelay(AcceleratedClock(k), d);
            var off := TwiceOff(d, q, k);
            0 <= off + k <= 2 * k && (off == k || off + k == 0 ==> q % 2 == 0)
  {
    var q, r := d / k, d % k;
    assert TwiceOff(d, q, k) == 2 * r;
    NextMultiple(d, q, k);
  }

  lemma NextMultiple(d: Duration, q: int, k: int)
    ensures TwiceOff(d, q + 1, k) == TwiceOff(d, q, k) - 2 * k
  {
    assert (q + 1) * k == q * k + k;
  }

  lemma {:induction false} MulGrows(q: nat, k: int)
    requires 1 <= k
    ensures q <= q * k
    ensures 2 <= k ==> 2 * q <= q * k
  {
    if k <= 2 {
    } else {
      MulGrows(q, k - 1);
    }
  }
}
