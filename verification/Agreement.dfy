/** The machine and the verifier agree: no orderly run of the state machine is ever failed by the
    independent verifier. And where the two disagree, exactly why. */
module Agreement {
  import opened Models
  import opened PeakWindows
  import opened Slots
  import opened CaseMachine
  import opened TrailMonitor
  import opened CaseRuns
  import opened RunResults
  import opened Verifier

  // ---- The environment ----------------------------------------------------------------------------

  predicate NotBeforeLast(previous: Option<Instant>, times: seq<Instant>) {
    previous.Some? && times != [] ==> times[|times| - 1] <= previous.value
  }

  /** What the services around the machine must see to, call by call; a call the machine turns down
      carries no duty. Notices are planned with a bandit or on the real clock, executions wait for their
      slot, whatever lands on a retry state does so off the peak, and no mismatched payment arrives
      while an execution is awaiting its outcome. */
  predicate Orderly(s: Sys, e: Event, cfg: Config, calendar: Calendar)
    requires ValidConfig(cfg)
  {
    var state, quiet := s.rec.state, !InPeak(cfg.peakWindows, e.at);
    && Fair(s, e, cfg, calendar)
    && match e.call
       case SendNotice(_, clock, _, previous, suggestion) =>
         state == NoticePending ==>
           quiet && (suggestion.Some? || clock.RealClock?) && NotBeforeLast(previous, ExecutionTimes(s.trail))
       case Execute(n) => Executes(s, e.call) ==> quiet && s.decisions[n].scheduledAt <= e.at
       case Release => state == Throttled ==> quiet
       case PaymentFailed(_) => state == RetryScheduled ==> quiet
       case PaymentSucceeded(amount) =>
         amount != s.rec.originalAmount ==> state != RetryExecuted && (state == RetryScheduled ==> quiet)
       case _ => true
  }

  predicate OrderlyRun(s: Sys, events: seq<Event>, cfg: Config, calendar: Calendar)
    requires ValidConfig(cfg)
    decreases |events|
  {
    events == [] ||
    (Orderly(s, events[0], cfg, calendar) && OrderlyRun(Step(s, events[0], cfg, calendar), events[1..], cfg, calendar))
  }

  // ---- What an orderly run keeps ------------------------------------------------------------------

  /** Nothing is violated so far, and a waiting case's slot leaves room for both gaps. */
  predicate Good(s: Sys, m: Monitor, cfg: Config)
    requires ValidConfig(cfg)
  {
    && m.noticeKept && m.spacingKept && m.offPeak
    && (m.lastExec.Some? ==> m.lastExec.value <= s.now)
    && (s.rec.state == NoticePending ==> m.execs == s.rec.retriesUsed)
    && (s.rec.state == RetryExecuted ==> m.execs == s.rec.retriesUsed + 1)
    && (Waiting(s.rec.state) ==>
          && m.execs == s.rec.retriesUsed
          && s.rec.retriesUsed + 1 in s.decisions
          && SlotClears(m, s.decisions[s.rec.retriesUsed + 1].scheduledAt, cfg))
  }

  predicate SlotClears(m: Monitor, slot: Instant, cfg: Config)
    requires ValidConfig(cfg)
  {
    && (m.openNotice.Some? ==> m.openNotice.value + cfg.noticeLead <= slot)
    && (m.lastExec.Some? ==> m.lastExec.value + SpacingFor(cfg, m.execs) <= slot)
  }

  lemma NoticeStaysGood(s: Sys, m: Monitor, at: Instant, planAt: Instant, slot: Instant, cfg: Config)
    requires ValidConfig(cfg) && Good(s, m, cfg) && s.rec.state == NoticePending
    requires s.now <= at <= planAt && planAt + cfg.noticeLead <= slot
    requires m.lastExec.Some? ==> m.lastExec.value + SpacingFor(cfg, s.rec.retriesUsed) <= slot
    requires !InPeak(cfg.peakWindows, at) && !InPeak(cfg.peakWindows, slot)
    ensures Good(Notify(s.(now := planAt), at, slot), Observe2(m, AfterNotice(s.rec, at, slot).entries, cfg), cfg)
  {
  }

  lemma ExecutionStaysGood(s: Sys, m: Monitor, n: int, at: Instant, cfg: Config)
    requires ValidConfig(cfg) && Good(s, m, cfg) && Executes(s, Execute(n)) && n == s.rec.retriesUsed + 1
    requires s.now <= at && s.decisions[n].scheduledAt <= at && !InPeak(cfg.peakWindows, at)
    ensures Good(ExecuteAttempt(s.(now := at), n, at), Observe2(m, AfterExecution(s.rec, at).entries, cfg), cfg)
  {
  }

  lemma FailureStaysGood(s: Sys, m: Monitor, business: bool, at: Instant, cfg: Config)
    requires ValidConfig(cfg) && Good(s, m, cfg) && s.now <= at && Resting(s.rec.state)
    requires s.rec.state == RetryScheduled ==> !InPeak(cfg.peakWindows, at)
    ensures var o := AfterFailure(s.rec, business, cfg, at);
            Good(Keep(s.(now := at), o), Observe2(m, o.entries, cfg), cfg)
  {
  }

  /** A payment logged without effect. */
  lemma IgnoredStaysGood(s: Sys, m: Monitor, rule: Rule, at: Instant, cfg: Config)
    requires ValidConfig(cfg) && Good(s, m, cfg) && s.now <= at
    requires s.rec.state != RetryExecuted && (s.rec.state == RetryScheduled ==> !InPeak(cfg.peakWindows, at))
    requires rule == AmountMismatch || rule == UnexpectedSuccessEvent
    ensures var o := Ignore(s.rec, rule, at);
            Good(Keep(s.(now := at), o), Observe2(m, o.entries, cfg), cfg)
  {
  }

  /** A call that ends the case with one entry. */
  lemma EndedStaysGood(s: Sys, m: Monitor, o: Outcome, at: Instant, cfg: Config)
    requires ValidConfig(cfg) && Good(s, m, cfg) && s.now <= at
    requires |o.entries| == 1 && o.entries[0].to == o.rec.state
    requires Closed(o.rec.state) || ControlState(o.rec.state)
    ensures Good(Keep(s.(now := at), o), Observe2(m, o.entries, cfg), cfg)
  {
  }

  /** A payment ends the case, or is logged without effect. */
  lemma SuccessEndsOrIgnores(rec: CaseRecord, amount: int, at: Instant)
    requires Resting(rec.state) && (rec.bucket == Some(ControlBucket) ==> ControlState(rec.state))
    ensures var o := AfterSuccess(rec, amount, at);
            if amount != rec.originalAmount then o == Ignore(rec, AmountMismatch, at)
            else
              || (|o.entries| == 1 && o.entries[0].to == o.rec.state
                  && (Closed(o.rec.state) || ControlState(o.rec.state)))
              || (o == Ignore(rec, UnexpectedSuccessEvent, at)
                  && rec.state != RetryExecuted && rec.state != RetryScheduled)
  {
  }

  lemma SuccessStaysGood(s: Sys, m: Monitor, amount: int, at: Instant, cfg: Config)
    requires ValidConfig(cfg) && Good(s, m, cfg) && s.now <= at && Resting(s.rec.state)
    requires s.rec.bucket == Some(ControlBucket) ==> ControlState(s.rec.state)
    requires amount != s.rec.originalAmount ==>
               s.rec.state != RetryExecuted && (s.rec.state == RetryScheduled ==> !InPeak(cfg.peakWindows, at))
    ensures var o := AfterSuccess(s.rec, amount, at);
            1 <= |o.entries| <= 2 && Good(Keep(s.(now := at), o), Observe2(m, o.entries, cfg), cfg)
  {
    var o := AfterSuccess(s.rec, amount, at);
    SuccessEndsOrIgnores(s.rec, amount, at);
    if amount != s.rec.originalAmount {
      IgnoredStaysGood(s, m, AmountMismatch, at, cfg);
    } else if Closed(o.rec.state) || ControlState(o.rec.state) {
      EndedStaysGood(s, m, o, at, cfg);
    } else {
      IgnoredStaysGood(s, m, UnexpectedSuccessEvent, at, cfg);
    }
  }

  lemma ThrottleStaysGood(s: Sys, m: Monitor, at: Instant, cfg: Config)
    requires ValidConfig(cfg) && Good(s, m, cfg) && s.now <= at && s.rec.state == RetryScheduled
    ensures var o := AfterThrottle(s.rec, at);
            Good(Keep(s.(now := at), o), Observe2(m, o.entries, cfg), cfg)
  {
  }

  lemma ReleaseStaysGood(s: Sys, m: Monitor, at: Instant, cfg: Config)
    requires ValidConfig(cfg) && Good(s, m, cfg) && s.now <= at && s.rec.state == Throttled
    requires !InPeak(cfg.peakWindows, at)
    ensures var o := AfterRelease(s.rec, at);
            Good(Keep(s.(now := at), o), Observe2(m, o.entries, cfg), cfg)
  {
  }

  lemma ClosingStaysGood(s: Sys, m: Monitor, note: ResolutionNote, at: Instant, cfg: Config)
    requires ValidConfig(cfg) && Good(s, m, cfg) && s.now <= at
    ensures s.rec.state == RetryScheduled ==>
              var o := AfterDistress(s.rec, at); Good(Keep(s.(now := at), o), Observe2(m, o.entries, cfg), cfg)
    ensures s.rec.state == Escalated ==>
              var o := AfterResolution(s.rec, note, at); Good(Keep(s.(now := at), o), Observe2(m, o.entries, cfg), cfg)
  {
  }

  lemma TriggerStaysGood(s: Sys, m: Monitor, e: Event, cfg: Config, calendar: Calendar)
    requires ValidConfig(cfg) && Good(s, m, cfg) && s.now <= e.at
    requires e.call.Throttle? || e.call.Release? || e.call.DistressBlock? || e.call.Resolve?
    requires e.call.Release? ==> s.rec.state == Throttled ==> !InPeak(cfg.peakWindows, e.at)
    ensures Good(Step(s, e, cfg, calendar), MonitorAfter(m, Kept(s, e, cfg, calendar), cfg), cfg)
  {
    match e.call
    case Throttle => if s.rec.state == RetryScheduled { ThrottleStaysGood(s, m, e.at, cfg); }
    case Release => if s.rec.state == Throttled { ReleaseStaysGood(s, m, e.at, cfg); }
    case DistressBlock => ClosingStaysGood(s, m, WrittenOff, e.at, cfg);
    case Resolve(note) => ClosingStaysGood(s, m, note, e.at, cfg);
  }

  /** The slot of an orderly notice is legal and clears the last execution. */
  lemma OrderlySlot(s: Sys, m: Monitor, e: Event, cfg: Config, calendar: Calendar)
    requires ValidConfig(cfg) && EndsInTheClear(cfg.peakWindows) && e.call.SendNotice?
    requires Orderly(s, e, cfg, calendar) && s.rec.state == NoticePending
    requires m == Watch(s.trail, cfg) && Good(s, m, cfg)
    ensures var slot := Slot(s, e.call, cfg, calendar);
            && slot.Some?
            && !InPeak(cfg.peakWindows, slot.value)
            && e.call.planAt + cfg.noticeLead <= slot.value
            && (m.lastExec.Some? ==> m.lastExec.value + SpacingFor(cfg, s.rec.retriesUsed) <= slot.value)
  {
    var call := e.call;
    var floor := SlotFloor(cfg, s.rec.retriesUsed, call.previous, call.planAt);
    if call.suggestion.Some? {
      BanditSlotLegality(cfg, floor, call.planAt, call.clock, call.insufficientFunds, call.suggestion.value, calendar);
    } else {
      FallbackSlotLegality(cfg, floor, call.planAt, call.clock, call.insufficientFunds, calendar);
    }
    FloorIsBothFloors(cfg, s.rec.retriesUsed, call.previous, call.planAt, Slot(s, call, cfg, calendar).value);
    WatchSpacing(s.trail, cfg);
  }

  /** The monitor after a call's entries. */
  function MonitorAfter(m: Monitor, o: Option<Outcome>, cfg: Config): Monitor
    requires ValidConfig(cfg)
  {
    if o.Some? && 1 <= |o.value.entries| <= 2 then Observe2(m, o.value.entries, cfg) else m
  }

  lemma WatchStep(s: Sys, e: Event, cfg: Config, calendar: Calendar)
    requires ValidConfig(cfg) && Fair(s, e, cfg, calendar)
    ensures Watch(Step(s, e, cfg, calendar).trail, cfg) ==
            MonitorAfter(Watch(s.trail, cfg), Kept(s, e, cfg, calendar), cfg)
  {
    var o := Kept(s, e, cfg, calendar);
    StepKeeps(s, e, cfg, calendar);
    if o.Some? {
      KeptWalks(s, e, cfg, calendar);
      WatchMore(s.trail, o.value.entries, cfg);
    }
  }

  lemma NoticeStepStaysGood(s: Sys, e: Event, cfg: Config, calendar: Calendar)
    requires ValidConfig(cfg) && EndsInTheClear(cfg.peakWindows) && e.call.SendNotice?
    requires Orderly(s, e, cfg, calendar) && Good(s, Watch(s.trail, cfg), cfg)
    ensures Good(Step(s, e, cfg, calendar), MonitorAfter(Watch(s.trail, cfg), Kept(s, e, cfg, calendar), cfg), cfg)
  {
    var m := Watch(s.trail, cfg);
    if s.rec.state == NoticePending {
      OrderlySlot(s, m, e, cfg, calendar);
      NoticeStaysGood(s, m, e.at, e.call.planAt, Slot(s, e.call, cfg, calendar).value, cfg);
    }
  }

  lemma FailedStepStaysGood(s: Sys, m: Monitor, e: Event, cfg: Config, calendar: Calendar)
    requires ValidConfig(cfg) && e.call.PaymentFailed? && s.now <= e.at && Good(s, m, cfg) && Resting(s.rec.state)
    requires s.rec.state == RetryScheduled ==> !InPeak(cfg.peakWindows, e.at)
    ensures Good(Step(s, e, cfg, calendar), MonitorAfter(m, Kept(s, e, cfg, calendar), cfg), cfg)
  {
    FailureStaysGood(s, m, e.call.business, e.at, cfg);
    StepIsKept(s, e, cfg, calendar);
    assert Kept(s, e, cfg, calendar) == Some(AfterFailure(s.rec, e.call.business, cfg, e.at));
  }

  lemma SucceededStepStaysGood(s: Sys, m: Monitor, e: Event, cfg: Config, calendar: Calendar)
    requires ValidConfig(cfg) && e.call.PaymentSucceeded? && s.now <= e.at && Good(s, m, cfg) && Resting(s.rec.state)
    requires s.rec.bucket == Some(ControlBucket) ==> ControlState(s.rec.state)
    requires e.call.amount != s.rec.originalAmount ==>
               s.rec.state != RetryExecuted && (s.rec.state == RetryScheduled ==> !InPeak(cfg.peakWindows, e.at))
    ensures Good(Step(s, e, cfg, calendar), MonitorAfter(m, Kept(s, e, cfg, calendar), cfg), cfg)
  {
    SuccessStaysGood(s, m, e.call.amount, e.at, cfg);
    StepIsKept(s, e, cfg, calendar);
    assert Kept(s, e, cfg, calendar) == Some(AfterSuccess(s.rec, e.call.amount, e.at));
  }

  lemma ExecuteStepStaysGood(s: Sys, m: Monitor, e: Event, cfg: Config, calendar: Calendar)
    requires ValidConfig(cfg) && e.call.Execute?
    requires Executes(s, e.call) ==> e.call.attempt == s.rec.retriesUsed + 1
    requires Orderly(s, e, cfg, calendar) && Good(s, m, cfg)
    ensures Good(Step(s, e, cfg, calendar), MonitorAfter(m, Kept(s, e, cfg, calendar), cfg), cfg)
  {
    if Executes(s, e.call) {
      ExecutionStaysGood(s, m, e.call.attempt, e.at, cfg);
    }
  }

  lemma StepStaysGood(s: Sys, e: Event, cfg: Config, calendar: Calendar)
    requires ValidConfig(cfg) && EndsInTheClear(cfg.peakWindows)
    requires Inv(s, Budget(cfg)) && Orderly(s, e, cfg, calendar)
    requires Good(s, Watch(s.trail, cfg), cfg)
    ensures var t := Step(s, e, cfg, calendar); Good(t, Watch(t.trail, cfg), cfg)
  {
    WatchStep(s, e, cfg, calendar);
    var m := Watch(s.trail, cfg);
    match e.call
    case SendNotice(_, _, _, _, _) => NoticeStepStaysGood(s, e, cfg, calendar);
    case PaymentFailed(_) => FailedStepStaysGood(s, m, e, cfg, calendar);
    case PaymentSucceeded(_) => SucceededStepStaysGood(s, m, e, cfg, calendar);
    case Execute(_) => ExecuteStepStaysGood(s, m, e, cfg, calendar);
    case _ => TriggerStaysGood(s, m, e, cfg, calendar);
  }

  lemma {:induction false} RunStaysGood(s: Sys, events: seq<Event>, cfg: Config, calendar: Calendar)
    requires ValidConfig(cfg) && EndsInTheClear(cfg.peakWindows)
    requires Inv(s, Budget(cfg)) && OrderlyRun(s, events, cfg, calendar)
    requires Good(s, Watch(s.trail, cfg), cfg)
    ensures var t := Run(s, events, cfg, calendar);
            Inv(t, Budget(cfg)) && Good(t, Watch(t.trail, cfg), cfg)
    decreases |events|
  {
    if events == [] {
    } else {
      StepStaysGood(s, events[0], cfg, calendar);
      StepKeepsInv(s, events[0], cfg, calendar);
      RunStaysGood(Step(s, events[0], cfg, calendar), events[1..], cfg, calendar);
    }
  }

  // ---- The agreement ------------------------------------------------------------------------------

  predicate BeforeRetries(e: AuditEntry) {
    e.to != NoticeSent && e.to != RetryScheduled && e.to != RetryExecuted
  }

  lemma {:induction false} QuietTrail(trail: seq<AuditEntry>, cfg: Config)
    requires |cfg.retrySpacing| > 0
    requires forall i :: 0 <= i < |trail| ==> BeforeRetries(trail[i])
    ensures Watch(trail, cfg) == Watch([], cfg)
  {
    if trail == [] {
    } else {
      QuietTrail(trail[..|trail| - 1], cfg);
    }
  }

  lemma OpensGood(f: NewFailure, openedAt: Instant, openClock: Clock, cfg: Config)
    requires ValidConfig(cfg)
    ensures var s := Open(f, cfg, openedAt, openClock); Good(s, Watch(s.trail, cfg), cfg)
  {
    QuietTrail(Opened(f, cfg, openedAt, openClock).entries, cfg);
  }

  lemma {:induction false} OrderlyIsFair(s: Sys, events: seq<Event>, cfg: Config, calendar: Calendar)
    requires ValidConfig(cfg) && OrderlyRun(s, events, cfg, calendar)
    ensures FairRun(s, events, cfg, calendar)
    decreases |events|
  {
    if events == [] {
    } else {
      OrderlyIsFair(Step(s, events[0], cfg, calendar), events[1..], cfg, calendar);
    }
  }

  /** The monitor's flags are the verifier's rules. */
  lemma GoodTrailComplies(s: Sys, cfg: Config)
    requires ValidConfig(cfg) && 1 <= cfg.maxRetries
    requires Inv(s, Budget(cfg)) && Good(s, Watch(s.trail, cfg), cfg) && !AfaViolated(s.rec, s.trail, cfg)
    ensures Complies(s.rec, s.trail, cfg)
  {
    WatchNotice(s.trail, cfg);
    WatchSpacing(s.trail, cfg);
    WatchMembers(s.trail, cfg);
    ReplayBuckets(s.trail);
  }

  /** The amount the two ceilings disagree about: above the default, within the category's. */
  predicate BetweenCeilings(f: NewFailure, cfg: Config)
    requires ValidConfig(cfg)
  {
    DefaultCeiling(cfg) < f.amount <= CeilingFor(cfg, f.category)
  }

  /** No orderly run is ever failed by the verifier. */
  lemma OrderlyRunsPass(f: NewFailure, openedAt: Instant, openClock: Clock, events: seq<Event>,
                        cfg: Config, calendar: Calendar)
    requires ValidConfig(cfg) && EndsInTheClear(cfg.peakWindows) && 1 <= cfg.maxRetries
    requires !BetweenCeilings(f, cfg)
    requires OrderlyRun(Open(f, cfg, openedAt, openClock), events, cfg, calendar)
    ensures var s := Reached(f, openedAt, openClock, events, cfg, calendar);
            Complies(s.rec, s.trail, cfg) && AllPassed(Report(s.rec, s.trail, cfg))
  {
    var s := Open(f, cfg, openedAt, openClock);
    OpenKeepsInv(f, cfg, openedAt, openClock);
    OpensGood(f, openedAt, openClock, cfg);
    RunStaysGood(s, events, cfg, calendar);
    OrderlyIsFair(s, events, cfg, calendar);
    OpensWithinCeiling(f, openedAt, openClock, cfg);
    RunWithinCeiling(s, events, f, cfg, calendar);
    var t := Run(s, events, cfg, calendar);
    GoodTrailComplies(t, cfg);
    ReportIsExact(t.rec, t.trail, cfg);
  }

  /** A case due for its next attempt, off the peak, that is executed and paid. */
  lemma ExecutedAndPaid(s: Sys, at: Instant, cfg: Config, calendar: Calendar) returns (events: seq<Event>)
    requires ValidConfig(cfg) && s.rec.bucket == Some(TreatmentBucket) && s.now <= at && !InPeak(cfg.peakWindows, at)
    requires s.rec.state == RetryScheduled && 1 in s.decisions && 1 !in s.log && s.decisions[1].scheduledAt == at
    ensures OrderlyRun(s, events, cfg, calendar) && Run(s, events, cfg, calendar).rec.state == Recovered
  {
    var execution, payment := Event(at, Execute(1)), Event(at, PaymentSucceeded(s.rec.originalAmount));
    events := [execution, payment];
    var t := Step(s, execution, cfg, calendar);
    assert events[1..] == [payment] && [payment][1..] == [];
    assert t.now == at && t.rec == s.rec.(state := RetryExecuted);
    assert OrderlyRun(t, [payment], cfg, calendar);
    assert Run(t, [payment], cfg, calendar) == Step(t, payment, cfg, calendar);
  }

  lemma NotifyFirst(s: Sys, e: Event, slot: Instant, cfg: Config, calendar: Calendar)
    requires ValidConfig(cfg) && e.call.SendNotice? && s.rec.state == NoticePending
    requires Slot(s, e.call, cfg, calendar) == Some(slot)
    ensures var t := Step(s, e, cfg, calendar);
            && t.now == e.call.planAt && t.log == s.log && t.rec == s.rec.(state := RetryScheduled)
            && s.rec.retriesUsed + 1 in t.decisions && t.decisions[s.rec.retriesUsed + 1].scheduledAt == slot
  {
  }

  lemma AdmittedOpens(f: NewFailure, at: Instant, openClock: Clock, cfg: Config)
    requires ValidConfig(cfg) && AdmittedToRetry(f, cfg)
    ensures var s := Open(f, cfg, at, openClock);
            && s.rec.state == NoticePending && s.rec.bucket == Some(TreatmentBucket) && s.rec.retriesUsed == 0
            && s.log == {} && s.now == at
  {
  }

  /** The environment asked for is one a service can be: from any instant off the peak, under any sound
      configuration, an orderly run recovers an admitted case. */
  lemma OrderlyRunRecovers(f: NewFailure, at: Instant, openClock: Clock, cfg: Config, calendar: Calendar)
    returns (events: seq<Event>)
    requires ValidConfig(cfg) && EndsInTheClear(cfg.peakWindows) && AdmittedToRetry(f, cfg)
    requires !InPeak(cfg.peakWindows, at)
    ensures OrderlyRun(Open(f, cfg, at, openClock), events, cfg, calendar)
    ensures Reached(f, at, openClock, events, cfg, calendar).rec.state == Recovered
  {
    var s := Open(f, cfg, at, openClock);
    AdmittedOpens(f, at, openClock, cfg);
    var notice := Event(at, SendNotice(at, RealClock, false, None, None));
    var floor := SlotFloor(cfg, 0, None, at);
    FallbackSlotLegality(cfg, floor, at, RealClock, false, calendar);
    var slot := Slot(s, notice.call, cfg, calendar).value;
    NotifyFirst(s, notice, slot, cfg, calendar);
    var rest := ExecutedAndPaid(Step(s, notice, cfg, calendar), slot, cfg, calendar);
    events := [notice] + rest;
    assert events[0] == notice && events[1..] == rest;
  }

  // ---- The ceilings -------------------------------------------------------------------------------

  predicate RetryPath(s: State) { s == NoticePending || Waiting(s) || s == RetryExecuted }

  predicate RetrySeen(trail: seq<AuditEntry>) { exists e :: e in trail && IsRetryEntry(e) }

  predicate AdmittedToRetry(f: NewFailure, cfg: Config)
    requires ValidConfig(cfg)
  {
    !f.isControl && Triage(f, cfg).0 == NoticePending
  }

  /** Only a case admitted to retry is ever on the retry path or shows a retry entry. */
  predicate WithinCeiling(s: Sys, f: NewFailure, cfg: Config)
    requires ValidConfig(cfg)
  {
    && s.rec.originalAmount == f.amount
    && (s.rec.bucket == Some(TreatmentBucket) <==> !f.isControl)
    && (RetryPath(s.rec.state) || RetrySeen(s.trail) ==> AdmittedToRetry(f, cfg))
  }

  lemma OpensWithinCeiling(f: NewFailure, openedAt: Instant, openClock: Clock, cfg: Config)
    requires ValidConfig(cfg)
    ensures WithinCeiling(Open(f, cfg, openedAt, openClock), f, cfg)
  {
  }

  /** An outcome that keeps amount and bucket and touches the retry path only from it. */
  predicate OnPath(rec: CaseRecord, o: Outcome) {
    && o.rec.originalAmount == rec.originalAmount && o.rec.bucket == rec.bucket
    && (RetryPath(o.rec.state) || RetrySeen(o.entries) ==> RetryPath(rec.state))
  }

  lemma FailureStaysOnPath(rec: CaseRecord, business: bool, cfg: Config, at: Instant)
    ensures OnPath(rec, AfterFailure(rec, business, cfg, at))
  {
  }

  lemma SuccessStaysOnPath(rec: CaseRecord, amount: int, at: Instant)
    ensures OnPath(rec, AfterSuccess(rec, amount, at))
  {
  }

  lemma KeptStaysOnPath(s: Sys, e: Event, cfg: Config, calendar: Calendar)
    requires ValidConfig(cfg) && Kept(s, e, cfg, calendar).Some?
    ensures OnPath(s.rec, Kept(s, e, cfg, calendar).value)
  {
    match e.call
    case PaymentFailed(business) => FailureStaysOnPath(s.rec, business, cfg, e.at);
    case PaymentSucceeded(amount) => SuccessStaysOnPath(s.rec, amount, e.at);
    case _ =>
  }

  lemma {:induction false} RunWithinCeiling(s: Sys, events: seq<Event>, f: NewFailure, cfg: Config, calendar: Calendar)
    requires ValidConfig(cfg) && FairRun(s, events, cfg, calendar) && WithinCeiling(s, f, cfg)
    ensures WithinCeiling(Run(s, events, cfg, calendar), f, cfg)
    decreases |events|
  {
    if events == [] {
    } else {
      var e := events[0];
      StepKeeps(s, e, cfg, calendar);
      if Kept(s, e, cfg, calendar).Some? {
        KeptStaysOnPath(s, e, cfg, calendar);
      }
      RunWithinCeiling(Step(s, e, cfg, calendar), events[1..], f, cfg, calendar);
    }
  }

  /** The machine reads the category's ceiling, the verifier the default one: some fair run of a case is
      failed for its amount exactly when the case is admitted and its amount lies between the two. */
  lemma AfaDisagreesExactly(f: NewFailure, openedAt: Instant, openClock: Clock, cfg: Config, calendar: Calendar)
    requires ValidConfig(cfg)
    ensures (exists events :: FairHistory(f, openedAt, openClock, events, cfg, calendar) &&
               var s := Reached(f, openedAt, openClock, events, cfg, calendar); AfaViolated(s.rec, s.trail, cfg))
            <==> !f.isControl && !f.business && BetweenCeilings(f, cfg)
  {
    var s := Open(f, cfg, openedAt, openClock);
    OpensWithinCeiling(f, openedAt, openClock, cfg);
    forall events | FairHistory(f, openedAt, openClock, events, cfg, calendar)
      ensures var t := Reached(f, openedAt, openClock, events, cfg, calendar);
              AfaViolated(t.rec, t.trail, cfg) ==> !f.isControl && !f.business && BetweenCeilings(f, cfg)
    {
      RunWithinCeiling(s, events, f, cfg, calendar);
    }
    if !f.isControl && !f.business && BetweenCeilings(f, cfg) {
      var e := Event(openedAt, SendNotice(openedAt, RealClock, false, None, None));
      var t := Step(s, e, cfg, calendar);
      assert Run(t, [e][1..], cfg, calendar) == t;
      assert Reached(f, openedAt, openClock, [e], cfg, calendar) == t;
      assert FairHistory(f, openedAt, openClock, [e], cfg, calendar);
      assert t.trail[|t.trail| - 1].to == RetryScheduled && t.trail[|t.trail| - 1] in t.trail;
    }
  }

  // ---- Exactly which calls break the rules --------------------------------------------------------

  predicate Unbroken(m: Monitor) { m.noticeKept && m.spacingKept && m.offPeak }

  predicate FarFromLast(m: Monitor, at: Instant, cfg: Config)
    requires ValidConfig(cfg)
  {
    m.lastExec.Some? ==> at - m.lastExec.value >= SpacingFor(cfg, m.execs)
  }

  /** The duty of a single call, in terms of the trail before it. */
  predicate Lawful(s: Sys, m: Monitor, e: Event, cfg: Config)
    requires ValidConfig(cfg)
  {
    var state, quiet := s.rec.state, !InPeak(cfg.peakWindows, e.at);
    match e.call
    case SendNotice(_, _, _, _, _) => state == NoticePending ==> quiet
    case Execute(n) =>
      Executes(s, e.call) ==>
        && quiet && FarFromLast(m, e.at, cfg)
        && (m.openNotice.Some? ==> e.at - m.openNotice.value >= cfg.noticeLead)
    case Release => state == Throttled ==> quiet
    case PaymentFailed(_) => state == RetryScheduled ==> quiet
    case PaymentSucceeded(amount) =>
      amount != s.rec.originalAmount ==>
        && (state == RetryScheduled || state == RetryExecuted ==> quiet)
        && (state == RetryExecuted ==> FarFromLast(m, e.at, cfg))
        && (state == RetryExecuted && m.openNotice.Some? ==> e.at - m.openNotice.value >= cfg.noticeLead)
    case _ => true
  }

  lemma FailureBreaksExactly(rec: CaseRecord, m: Monitor, business: bool, at: Instant, cfg: Config)
    requires ValidConfig(cfg) && Unbroken(m) && Resting(rec.state)
    ensures Unbroken(Observe2(m, AfterFailure(rec, business, cfg, at).entries, cfg)) <==>
            (rec.state == RetryScheduled ==> !InPeak(cfg.peakWindows, at))
  {
  }

  lemma SuccessBreaksExactly(s: Sys, m: Monitor, e: Event, cfg: Config)
    requires ValidConfig(cfg) && Unbroken(m) && e.call.PaymentSucceeded? && Resting(s.rec.state)
    requires s.rec.bucket == Some(ControlBucket) ==> ControlState(s.rec.state)
    ensures Unbroken(Observe2(m, AfterSuccess(s.rec, e.call.amount, e.at).entries, cfg)) <==> Lawful(s, m, e, cfg)
  {
    SuccessEndsOrIgnores(s.rec, e.call.amount, e.at);
  }

  lemma WebhookBreaksExactly(s: Sys, m: Monitor, e: Event, cfg: Config, calendar: Calendar)
    requires ValidConfig(cfg) && Unbroken(m) && Tells(ReplayOf(s.trail), s.rec)
    requires e.call.PaymentFailed? || e.call.PaymentSucceeded?
    ensures Unbroken(MonitorAfter(m, Kept(s, e, cfg, calendar), cfg)) <==> Lawful(s, m, e, cfg)
  {
    match e.call
    case PaymentFailed(business) => FailureBreaksExactly(s.rec, m, business, e.at, cfg);
    case PaymentSucceeded(amount) => SuccessBreaksExactly(s, m, e, cfg);
  }

  lemma NoticeBreaksExactly(s: Sys, m: Monitor, at: Instant, slot: Instant, cfg: Config)
    requires ValidConfig(cfg) && Unbroken(m) && !InPeak(cfg.peakWindows, slot)
    ensures Unbroken(Observe2(m, AfterNotice(s.rec, at, slot).entries, cfg)) <==> !InPeak(cfg.peakWindows, at)
  {
  }

  lemma TriggerBreaksExactly(s: Sys, m: Monitor, e: Event, cfg: Config, calendar: Calendar)
    requires ValidConfig(cfg) && Unbroken(m)
    requires !e.call.PaymentFailed? && !e.call.PaymentSucceeded? && !e.call.SendNotice?
    ensures Unbroken(MonitorAfter(m, Kept(s, e, cfg, calendar), cfg)) <==> Lawful(s, m, e, cfg)
  {
  }

  /** From a trail that keeps the notice, spacing and blackout rules, a fair call breaks one of them
      exactly when it neglects its duty. */
  lemma CallBreaksExactly(s: Sys, e: Event, cfg: Config, calendar: Calendar)
    requires ValidConfig(cfg) && EndsInTheClear(cfg.peakWindows) && Fair(s, e, cfg, calendar)
    requires Tells(ReplayOf(s.trail), s.rec) && Unbroken(Watch(s.trail, cfg))
    ensures var trail := Step(s, e, cfg, calendar).trail;
            NoticeViolated(trail, cfg.noticeLead) || SpacingViolated(trail, cfg) || PeakViolated(trail, cfg) <==>
            !Lawful(s, Watch(s.trail, cfg), e, cfg)
  {
    var m := Watch(s.trail, cfg);
    WatchStep(s, e, cfg, calendar);
    UnbrokenMeans(Step(s, e, cfg, calendar).trail, cfg);
    match e.call
    case PaymentFailed(_) | PaymentSucceeded(_) => WebhookBreaksExactly(s, m, e, cfg, calendar);
    case SendNotice(planAt, clock, insufficient, previous, suggestion) =>
      if s.rec.state == NoticePending {
        SlotOffPeak(s, e.call, cfg, calendar);
        NoticeBreaksExactly(s, m, e.at, Slot(s, e.call, cfg, calendar).value, cfg);
      }
    case _ => TriggerBreaksExactly(s, m, e, cfg, calendar);
  }

  lemma SlotOffPeak(s: Sys, call: Call, cfg: Config, calendar: Calendar)
    requires ValidConfig(cfg) && EndsInTheClear(cfg.peakWindows) && call.SendNotice?
    ensures var slot := Slot(s, call, cfg, calendar); slot.Some? ==> !InPeak(cfg.peakWindows, slot.value)
  {
    var floor := SlotFloor(cfg, s.rec.retriesUsed, call.previous, call.planAt);
    if call.suggestion.Some? {
      BanditSlotLegality(cfg, floor, call.planAt, call.clock, call.insufficientFunds, call.suggestion.value, calendar);
    } else {
      FallbackSlotLegality(cfg, floor, call.planAt, call.clock, call.insufficientFunds, calendar);
    }
  }

  lemma UnbrokenMeans(trail: seq<AuditEntry>, cfg: Config)
    requires |cfg.retrySpacing| > 0
    ensures Unbroken(Watch(trail, cfg)) <==>
            !NoticeViolated(trail, cfg.noticeLead) && !SpacingViolated(trail, cfg) && !PeakViolated(trail, cfg)
  {
    WatchNotice(trail, cfg);
    WatchSpacing(trail, cfg);
    WatchMembers(trail, cfg);
  }

  // ---- Exactly which runs pass ----------------------------------------------------------------------

  /** Every call of the run does its duty. */
  predicate LawfulRun(s: Sys, events: seq<Event>, cfg: Config, calendar: Calendar)
    requires ValidConfig(cfg)
    decreases |events|
  {
    events == [] ||
    (Lawful(s, Watch(s.trail, cfg), events[0], cfg) &&
     LawfulRun(Step(s, events[0], cfg, calendar), events[1..], cfg, calendar))
  }

  lemma BrokenStaysBroken(s: Sys, e: Event, cfg: Config, calendar: Calendar)
    requires ValidConfig(cfg) && Fair(s, e, cfg, calendar) && Unbroken(Watch(Step(s, e, cfg, calendar).trail, cfg))
    ensures Unbroken(Watch(s.trail, cfg))
  {
    WatchStep(s, e, cfg, calendar);
  }

  lemma {:induction false} BrokenRunStaysBroken(s: Sys, events: seq<Event>, cfg: Config, calendar: Calendar)
    requires ValidConfig(cfg) && FairRun(s, events, cfg, calendar)
    requires Unbroken(Watch(Run(s, events, cfg, calendar).trail, cfg))
    ensures Unbroken(Watch(s.trail, cfg))
    decreases |events|
  {
    if events == [] {
    } else {
      BrokenRunStaysBroken(Step(s, events[0], cfg, calendar), events[1..], cfg, calendar);
      BrokenStaysBroken(s, events[0], cfg, calendar);
    }
  }

  lemma {:induction false} RunBreaksExactly(s: Sys, events: seq<Event>, cfg: Config, calendar: Calendar)
    requires ValidConfig(cfg) && EndsInTheClear(cfg.peakWindows) && FairRun(s, events, cfg, calendar)
    requires Inv(s, Budget(cfg)) && Unbroken(Watch(s.trail, cfg))
    ensures Unbroken(Watch(Run(s, events, cfg, calendar).trail, cfg)) <==> LawfulRun(s, events, cfg, calendar)
    decreases |events|
  {
    if events == [] {
    } else {
      var t := Step(s, events[0], cfg, calendar);
      CallBreaksExactly(s, events[0], cfg, calendar);
      UnbrokenMeans(t.trail, cfg);
      StepKeepsInv(s, events[0], cfg, calendar);
      if Unbroken(Watch(t.trail, cfg)) {
        RunBreaksExactly(t, events[1..], cfg, calendar);
      } else if Unbroken(Watch(Run(t, events[1..], cfg, calendar).trail, cfg)) {
        BrokenRunStaysBroken(t, events[1..], cfg, calendar);
      }
    }
  }

  /** Agreement both ways, over runs: the verifier passes a fair run exactly when every call did its duty
      and no case whose amount lies between the two ceilings was ever scheduled. */
  lemma FairRunPassesExactly(f: NewFailure, openedAt: Instant, openClock: Clock, events: seq<Event>,
                             cfg: Config, calendar: Calendar)
    requires ValidConfig(cfg) && EndsInTheClear(cfg.peakWindows) && 1 <= cfg.maxRetries
    requires FairHistory(f, openedAt, openClock, events, cfg, calendar)
    ensures var s := Reached(f, openedAt, openClock, events, cfg, calendar);
            AllPassed(Report(s.rec, s.trail, cfg)) <==>
              && LawfulRun(Open(f, cfg, openedAt, openClock), events, cfg, calendar)
              && !(BetweenCeilings(f, cfg) && RetrySeen(s.trail))
  {
    var s := Open(f, cfg, openedAt, openClock);
    var t := Run(s, events, cfg, calendar);
    OpenKeepsInv(f, cfg, openedAt, openClock);
    OpensGood(f, openedAt, openClock, cfg);
    RunBreaksExactly(s, events, cfg, calendar);
    RunKeepsInv(s, events, cfg, calendar);
    OpensWithinCeiling(f, openedAt, openClock, cfg);
    RunWithinCeiling(s, events, f, cfg, calendar);
    PassesExactly(t, f, cfg);
  }

  lemma PassesExactly(t: Sys, f: NewFailure, cfg: Config)
    requires ValidConfig(cfg) && 1 <= cfg.maxRetries && Inv(t, Budget(cfg)) && WithinCeiling(t, f, cfg)
    ensures AllPassed(Report(t.rec, t.trail, cfg)) <==>
              Unbroken(Watch(t.trail, cfg)) && !(BetweenCeilings(f, cfg) && RetrySeen(t.trail))
  {
    ReportIsExact(t.rec, t.trail, cfg);
    UnbrokenMeans(t.trail, cfg);
    ReplayBuckets(t.trail);
    CapIsKept(t, cfg);
  }

  lemma CapIsKept(t: Sys, cfg: Config)
    requires 1 <= cfg.maxRetries && Inv(t, Budget(cfg))
    ensures t.rec.retriesUsed <= cfg.maxRetries
  {
  }

  /** A mismatched payment while an execution awaits its outcome: the case stays as it is, but the loop
      logged on RETRY_EXECUTED reads as a second execution and the case fails verification. */
  lemma MismatchedPaymentFailsCase(s: Sys, e: Event, cfg: Config, calendar: Calendar)
    requires ValidConfig(cfg) && EndsInTheClear(cfg.peakWindows) && Fair(s, e, cfg, calendar)
    requires Tells(ReplayOf(s.trail), s.rec) && Unbroken(Watch(s.trail, cfg))
    requires s.rec.state == RetryExecuted && e.call.PaymentSucceeded? && e.call.amount != s.rec.originalAmount
    requires !FarFromLast(Watch(s.trail, cfg), e.at, cfg)
    ensures var t := Step(s, e, cfg, calendar);
            t.rec == s.rec && !Complies(t.rec, t.trail, cfg) && !AllPassed(Report(t.rec, t.trail, cfg))
  {
    CallBreaksExactly(s, e, cfg, calendar);
    var t := Step(s, e, cfg, calendar);
    ReportIsExact(t.rec, t.trail, cfg);
  }

  /** A notice followed by its execution less than the lead time later breaks the notice rule. */
  lemma ExecutedTooSoon(trail: seq<AuditEntry>, rec: CaseRecord, at: Instant, slot: Instant, lead: Duration)
    requires slot - at < lead
    ensures var notified := AfterNotice(rec, at, slot);
            NoticeViolated(trail + notified.entries + AfterExecution(notified.rec, slot).entries, lead)
  {
    var notified := AfterNotice(rec, at, slot);
    var longer := trail + notified.entries + AfterExecution(notified.rec, slot).entries;
    var n := |trail|;
    assert longer[n] == notified.entries[0] && longer[n + 1] == notified.entries[1];
    assert NoticeServed(longer, n, n + 2);
  }

  /** In the shipped demo profile without a bandit, executing a first retry at its very slot always
      breaks the notice rule. */
  lemma DemoClockFailsCase(s: Sys, at: Instant, insufficientFunds: bool, calendar: Calendar)
    requires s.rec.state == NoticePending && s.rec.retriesUsed == 0 && s.log == {}
    ensures ValidConfig(SHIPPED)
    ensures var notice := SendNotice(at, AcceleratedClock(3600), insufficientFunds, None, None);
            var s1 := Step(s, Event(at, notice), SHIPPED, calendar);
            && 1 in s1.decisions
            && var s2 := Step(s1, Event(s1.decisions[1].scheduledAt, Execute(1)), SHIPPED, calendar);
               s2.rec.state == RetryExecuted && NoticeViolated(s2.trail, SHIPPED.noticeLead)
  {
    DemoClockUndercutsFloor(0, None, at, insufficientFunds, calendar);
    var slot := ScheduledAt(SHIPPED, 0, None, at, AcceleratedClock(3600), insufficientFunds, None, calendar).value;
    assert SlotFloor(SHIPPED, 0, None, at) == at + SHIPPED.noticeLead;
    DemoSteps(s, at, slot, insufficientFunds, calendar);
    ExecutedTooSoon(s.trail, s.rec, at, slot, SHIPPED.noticeLead);
  }

  lemma DemoSteps(s: Sys, at: Instant, slot: Instant, insufficientFunds: bool, calendar: Calendar)
    requires s.rec.state == NoticePending && s.rec.retriesUsed == 0 && s.log == {} && ValidConfig(SHIPPED)
    requires ScheduledAt(SHIPPED, 0, None, at, AcceleratedClock(3600), insufficientFunds, None, calendar) == Some(slot)
    ensures var notice := SendNotice(at, AcceleratedClock(3600), insufficientFunds, None, None);
            var s1 := Step(s, Event(at, notice), SHIPPED, calendar);
            && 1 in s1.decisions && s1.decisions[1].scheduledAt == slot
            && var s2 := Step(s1, Event(slot, Execute(1)), SHIPPED, calendar);
               && s2.rec.state == RetryExecuted
               && var notified := AfterNotice(s.rec, at, slot);
                  s2.trail == s.trail + notified.entries + AfterExecution(notified.rec, slot).entries
  {
  }
}
