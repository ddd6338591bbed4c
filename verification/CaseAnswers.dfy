/** What each call must answer, and what a run can always still do: openings, failures, payments, the retry
    budget, the throttle and the closed states. */
module CaseAnswers {
  import opened Models
  import opened Slots
  import opened CaseMachine
  import opened TrailMonitor
  import opened CaseRuns
  import opened RunResults
  import opened CaseFacts
  import opened EndpointRuns

  // ---- Openings -------------------------------------------------------------------------------------

  /** The first answer to a failure: observed in the control group; escalated if the decline is hard; left to
      authentication exactly above the ceiling listed for its category, or else the default one; and
      otherwise to be retried. */
  lemma OpeningAnswersExactly(f: NewFailure, cfg: Config, now: Instant, clock: Clock)
    requires ValidConfig(cfg)
    ensures var rec := Opened(f, cfg, now, clock).rec;
            var ceiling := if f.category in cfg.ceilings then cfg.ceilings[f.category] else cfg.ceilings["default"];
            && rec.retriesUsed == 0
            && rec.controlOutcome == (if f.isControl then Some(Unknown) else None)
            && (rec.state == ControlHeld <==> f.isControl)
            && (rec.state == Escalated <==> !f.isControl && f.business)
            && (rec.state == AfaRequired <==> !f.isControl && !f.business && f.amount > ceiling)
            && (rec.state == NoticePending <==> !f.isControl && !f.business && f.amount <= ceiling)
  {
  }

  /** As shipped: fifteen thousand rupees, and a hundred thousand in three categories. */
  lemma ShippedOpening(f: NewFailure, now: Instant, clock: Clock)
    requires !f.isControl && !f.business && ValidConfig(SHIPPED)
    ensures Opened(f, SHIPPED, now, clock).rec.state == NoticePending <==>
            f.amount <= if f.category in {"insurance", "mutual_fund", "credit_card_bill"} then 10_000_000 else 1_500_000
  {
    OpeningAnswersExactly(f, SHIPPED, now, clock);
  }

  /** As shipped, a control case is observed for three days, and a case is executed up to three times. */
  lemma ShippedLimits(f: NewFailure, now: Instant)
    requires ValidConfig(SHIPPED) && f.isControl
    ensures Opened(f, SHIPPED, now, RealClock).rec.controlDeadline == Some(now + 3 * DAY) && Budget(SHIPPED) == 3
  {
  }

  // ---- Failures -------------------------------------------------------------------------------------

  /** A failure ends a control observation, and decides an executed retry: it escalates exactly if the decline
      is hard or the budget is spent, and otherwise the case goes on to its next notice. Any other case is
      left as it was. */
  lemma FailureAnswersExactly(s: Sys, e: Event, cfg: Config, calendar: Calendar)
    requires ValidConfig(cfg) && e.call.PaymentFailed?
    ensures var rec, t := s.rec, Step(s, e, cfg, calendar).rec;
            match rec.state
            case RetryExecuted =>
              && t.retriesUsed == rec.retriesUsed + 1
              && (t.state == Escalated <==> e.call.business || rec.retriesUsed + 1 >= cfg.maxRetries)
              && (t.state != Escalated ==> t.state == NoticePending)
            case ControlHeld => t.state == ControlStillFailed && t.controlOutcome == Some(StillFailed)
            case _ => t == rec
  {
  }

  // ---- Payments -------------------------------------------------------------------------------------

  /** A payment closed the case. */
  predicate ClosedByPayment(rec: CaseRecord) {
    rec.state == Recovered || rec.state == RecoveredNaturally || rec.state == ControlRecovered
  }

  /** The case was given up for good before any payment. */
  predicate GivenUp(rec: CaseRecord) { rec.state == ResolvedByHuman || rec.state == ControlStillFailed }

  /** What a payment of the original amount makes of a case between calls. */
  predicate PaysOff(before: CaseRecord, after: CaseRecord) {
    && (ClosedByPayment(after) <==> !GivenUp(before))
    && (ClosedByPayment(before) || GivenUp(before) ==> after == before)
    && (!ClosedByPayment(before) && !GivenUp(before) ==>
          if before.bucket == Some(ControlBucket)
          then after.state == ControlRecovered && after.controlOutcome == Some(RecoveredWithoutAgent)
          else (after.state == Recovered <==>
                  before.state == RetryExecuted || before.state == Escalated || before.state == AfaRequired)
               && (after.state != Recovered ==> after.state == RecoveredNaturally))
  }

  lemma MatchingPaysOff(rec: CaseRecord, at: Instant)
    requires Rested(rec)
    ensures PaysOff(rec, AfterSuccess(rec, rec.originalAmount, at).rec)
  {
  }

  /** After any fair run, a payment of the original amount closes the case unless it was given up: a control
      case as recovered without the agent, a treatment case as recovered exactly if it was executed, escalated
      or awaiting authentication, and else naturally. A payment of another amount changes nothing. */
  lemma PaymentAnswersExactly(f: NewFailure, openedAt: Instant, openClock: Clock, events: seq<Event>, e: Event,
                              cfg: Config, calendar: Calendar)
    requires ValidConfig(cfg) && FairHistory(f, openedAt, openClock, events, cfg, calendar)
    requires e.call.PaymentSucceeded?
    ensures var s := Reached(f, openedAt, openClock, events, cfg, calendar);
            var t := Step(s, e, cfg, calendar).rec;
            if e.call.amount == f.amount then PaysOff(s.rec, t) else t == s.rec
  {
    var s := Reached(f, openedAt, openClock, events, cfg, calendar);
    ReachedInv(f, openedAt, openClock, events, cfg, calendar);
    RecordsAreKept(f, openedAt, openClock, events, cfg, calendar);
    TellsRested(ReplayOf(s.trail), s.rec);
    MatchingPaysOff(s.rec, e.at);
  }

  // ---- The budget -----------------------------------------------------------------------------------

  lemma RunCons(s: Sys, e: Event, rest: seq<Event>, cfg: Config, calendar: Calendar)
    requires ValidConfig(cfg)
    ensures Run(s, [e] + rest, cfg, calendar) == Run(Step(s, e, cfg, calendar), rest, cfg, calendar)
    ensures FairRun(s, [e] + rest, cfg, calendar) <==>
            Fair(s, e, cfg, calendar) && FairRun(Step(s, e, cfg, calendar), rest, cfg, calendar)
  {
    assert ([e] + rest)[0] == e && ([e] + rest)[1..] == rest;
  }

  /** From a pending notice: the next retry, notified and executed. */
  lemma NextRetry(s: Sys, cfg: Config, calendar: Calendar) returns (notice: Event, execution: Event, t: Sys)
    requires ValidConfig(cfg) && Inv(s, Budget(cfg)) && s.rec.state == NoticePending
    ensures Fair(s, notice, cfg, calendar)
    ensures var s1 := Step(s, notice, cfg, calendar);
            Fair(s1, execution, cfg, calendar) && t == Step(s1, execution, cfg, calendar)
    ensures Inv(t, Budget(cfg)) && t.rec == s.rec.(state := RetryExecuted)
    ensures CountExecutions(t.trail) == s.rec.retriesUsed + 1 <= Budget(cfg)
  {
    notice := Event(s.now, SendNotice(s.now, RealClock, false, None, None));
    var s1 := Step(s, notice, cfg, calendar);
    StepKeepsInv(s, notice, cfg, calendar);
    InvMakesReady(s1, Budget(cfg));
    execution := Event(s.now, Execute(s.rec.retriesUsed + 1));
    StepExecutes(s1, execution, cfg, calendar);
    StepKeepsInv(s1, execution, cfg, calendar);
    t := Step(s1, execution, cfg, calendar);
    ReplayCounts(t.trail);
  }

  lemma {:induction false} SpendFrom(s: Sys, cfg: Config, calendar: Calendar) returns (events: seq<Event>)
    requires ValidConfig(cfg) && Inv(s, Budget(cfg)) && s.rec.state == NoticePending
    ensures FairRun(s, events, cfg, calendar)
    ensures CountExecutions(Run(s, events, cfg, calendar).trail) == Budget(cfg)
    decreases Budget(cfg) - s.rec.retriesUsed
  {
    var notice, execution, t := NextRetry(s, cfg, calendar);
    var rest: seq<Event>;
    if s.rec.retriesUsed + 1 == Budget(cfg) {
      rest := [];
    } else {
      var failure := Event(t.now, PaymentFailed(false));
      FailureAnswersExactly(t, failure, cfg, calendar);
      StepKeepsInv(t, failure, cfg, calendar);
      var more := SpendFrom(Step(t, failure, cfg, calendar), cfg, calendar);
      RunCons(t, failure, more, cfg, calendar);
      rest := [failure] + more;
    }
    var s1 := Step(s, notice, cfg, calendar);
    RunCons(s1, execution, rest, cfg, calendar);
    RunCons(s, notice, [execution] + rest, cfg, calendar);
    events := [notice] + ([execution] + rest);
  }

  /** The budget can be spent: under every configuration some fair run of an admitted case executes it as often
      as the cap allows, or once if the cap is below one. */
  lemma BudgetCanBeSpent(f: NewFailure, openedAt: Instant, openClock: Clock, cfg: Config, calendar: Calendar)
    returns (events: seq<Event>)
    requires ValidConfig(cfg) && !f.isControl && Triage(f, cfg).0 == NoticePending
    ensures FairHistory(f, openedAt, openClock, events, cfg, calendar)
    ensures CountExecutions(Reached(f, openedAt, openClock, events, cfg, calendar).trail)
         == if cfg.maxRetries < 1 then 1 else cfg.maxRetries
  {
    OpenKeepsInv(f, cfg, openedAt, openClock);
    events := SpendFrom(Open(f, cfg, openedAt, openClock), cfg, calendar);
  }

  // ---- Waiting and closed ---------------------------------------------------------------------------

  predicate NoRelease(events: seq<Event>) {
    forall i :: 0 <= i < |events| ==> !events[i].call.Release?
  }

  predicate Held(state: State) { state == Throttled || state == RecoveredNaturally }

  /** A throttled case is not executed, nor scheduled anew, before it is released: whatever else is called, it
      stays throttled or is recovered naturally. */
  lemma {:induction false} ThrottleHolds(s: Sys, events: seq<Event>, cfg: Config, calendar: Calendar)
    requires ValidConfig(cfg) && Held(s.rec.state) && Rested(s.rec) && NoRelease(events)
    ensures var t := Run(s, events, cfg, calendar);
            Held(t.rec.state) && t.log == s.log && t.decisions == s.decisions
    decreases |events|
  {
    if events == [] {
    } else {
      HeldStep(s, events[0], cfg, calendar);
      ThrottleHolds(Step(s, events[0], cfg, calendar), events[1..], cfg, calendar);
    }
  }

  lemma HeldStep(s: Sys, e: Event, cfg: Config, calendar: Calendar)
    requires ValidConfig(cfg) && Held(s.rec.state) && Rested(s.rec) && !e.call.Release?
    ensures var t := Step(s, e, cfg, calendar);
            Held(t.rec.state) && Rested(t.rec) && t.log == s.log && t.decisions == s.decisions
  {
  }

  /** Throttling a scheduled case takes it off the schedule, and releasing it puts it back as it was. */
  lemma ReleaseUndoesThrottle(s: Sys, throttle: Event, release: Event, cfg: Config, calendar: Calendar)
    requires ValidConfig(cfg) && s.rec.state == RetryScheduled && throttle.call.Throttle? && release.call.Release?
    ensures var held := Step(s, throttle, cfg, calendar);
            var t := Step(held, release, cfg, calendar);
            && held.rec.state == Throttled
            && t.rec == s.rec && t.log == s.log && t.decisions == s.decisions
  {
  }

  /** A closed case, or a control case, is never executed and never uses a retry again. */
  lemma {:induction false} ClosedNeverExecutes(s: Sys, events: seq<Event>, cfg: Config, calendar: Calendar)
    requires ValidConfig(cfg) && (Closed(s.rec.state) || ControlState(s.rec.state))
    ensures var t := Run(s, events, cfg, calendar);
            && (Closed(t.rec.state) || ControlState(t.rec.state))
            && t.log == s.log && t.decisions == s.decisions && t.rec.retriesUsed == s.rec.retriesUsed
    decreases |events|
  {
    if events == [] {
    } else {
      ClosedStep(s, events[0], cfg, calendar);
      ClosedNeverExecutes(Step(s, events[0], cfg, calendar), events[1..], cfg, calendar);
    }
  }

  lemma ClosedStep(s: Sys, e: Event, cfg: Config, calendar: Calendar)
    requires ValidConfig(cfg) && (Closed(s.rec.state) || ControlState(s.rec.state))
    ensures var t := Step(s, e, cfg, calendar);
            && (Closed(t.rec.state) || ControlState(t.rec.state))
            && t.log == s.log && t.decisions == s.decisions && t.rec.retriesUsed == s.rec.retriesUsed
  {
  }

  /** The distress gate ends the retries of a scheduled case for good. */
  lemma DistressEndsRetries(s: Sys, e: Event, more: seq<Event>, cfg: Config, calendar: Calendar)
    requires ValidConfig(cfg) && s.rec.state == RetryScheduled && e.call.DistressBlock?
    ensures Step(s, e, cfg, calendar).rec.state == Escalated
    ensures var t := Run(Step(s, e, cfg, calendar), more, cfg, calendar);
            t.log == s.log && t.decisions == s.decisions && t.rec.retriesUsed == s.rec.retriesUsed
  {
    ClosedNeverExecutes(Step(s, e, cfg, calendar), more, cfg, calendar);
  }
}
