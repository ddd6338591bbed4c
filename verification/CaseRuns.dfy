/** Runs of one case: every sequence of handler calls under a clock that does not go back, with the
    decisions the store keeps and the attempts the commit log holds. */
module CaseRuns {
  import opened Models
  import opened Slots
  import opened CaseMachine
  import opened TrailMonitor

  datatype Call =
    | PaymentFailed(business: bool)
    | PaymentSucceeded(amount: int)
    | SendNotice(planAt: Instant, clock: Clock, insufficientFunds: bool,
                 previous: Option<Instant>, suggestion: Option<Instant>)
    | Execute(attempt: int)
    | Throttle
    | Release
    | DistressBlock
    | Resolve(note: ResolutionNote)

  datatype Event = Event(at: Instant, call: Call)

  datatype Sys = Sys(
    rec: CaseRecord,
    trail: seq<AuditEntry>,
    decisions: map<int, RetryDecision>,
    log: set<int>,
    now: Instant)

  function Keep(s: Sys, o: Outcome): Sys {
    s.(rec := o.rec, trail := s.trail + o.entries)
  }

  function Slot(s: Sys, call: Call, cfg: Config, calendar: Calendar): Option<Instant>
    requires ValidConfig(cfg) && call.SendNotice?
  {
    ScheduledAt(cfg, s.rec.retriesUsed, call.previous, call.planAt, call.clock, call.insufficientFunds,
                call.suggestion, calendar)
  }

  /** A notice that found its slot. */
  function Notify(s: Sys, at: Instant, slot: Instant): Sys {
    var n := s.rec.retriesUsed + 1;
    Keep(s, AfterNotice(s.rec, at, slot))
      .(decisions := s.decisions[n := RetryDecision(s.rec.caseId, n, slot, None)])
  }

  /** Execution of the n-th decision; the commit backend refuses an attempt already in the log. */
  function ExecuteAttempt(s: Sys, n: int, at: Instant): Sys {
    if s.rec.state != RetryScheduled || n !in s.decisions || n in s.log then s
    else
      Keep(s, AfterExecution(s.rec, at))
        .(log := s.log + {n}, decisions := s.decisions[n := s.decisions[n].(executedAt := Some(at))])
  }

  predicate Executes(s: Sys, call: Call) {
    call.Execute? && s.rec.state == RetryScheduled && call.attempt in s.decisions && call.attempt !in s.log
  }

  /** The outcome a call keeps, if it keeps one. */
  function Kept(s: Sys, e: Event, cfg: Config, calendar: Calendar): Option<Outcome>
    requires ValidConfig(cfg)
  {
    var (rec, at) := (s.rec, e.at);
    match e.call
    case PaymentFailed(business) => Some(AfterFailure(rec, business, cfg, at))
    case PaymentSucceeded(amount) => Some(AfterSuccess(rec, amount, at))
    case SendNotice(_, _, _, _, _) =>
      if rec.state != NoticePending then None
      else
        var slot := Slot(s, e.call, cfg, calendar);
        if slot.None? then None else Some(AfterNotice(rec, at, slot.value))
    case Execute(n) => if Executes(s, e.call) then Some(AfterExecution(rec, at)) else None
    case Throttle => if rec.state == RetryScheduled then Some(AfterThrottle(rec, at)) else None
    case Release => if rec.state == Throttled then Some(AfterRelease(rec, at)) else None
    case DistressBlock => if rec.state == RetryScheduled then Some(AfterDistress(rec, at)) else None
    case Resolve(note) => if rec.state == Escalated then Some(AfterResolution(rec, note, at)) else None
  }

  /** One call. A handler that raises leaves the case as it was, except for the failed assertion on an
      illegal bandit suggestion, which strikes after the state became NOTICE_SENT. */
  function Step(s: Sys, e: Event, cfg: Config, calendar: Calendar): Sys
    requires ValidConfig(cfg)
  {
    var t := s.(now := if e.call.SendNotice? then e.call.planAt else e.at);
    match e.call
    case SendNotice(_, _, _, _, _) =>
      if s.rec.state != NoticePending then t
      else
        var slot := Slot(s, e.call, cfg, calendar);
        if slot.None? then t.(rec := s.rec.(state := NoticeSent)) else Notify(t, e.at, slot.value)
    case Execute(n) => ExecuteAttempt(t, n, e.at)
    case _ =>
      var o := Kept(s, e, cfg, calendar);
      if o.Some? then Keep(t, o.value) else t
  }

  function Open(f: NewFailure, cfg: Config, now: Instant, clock: Clock): Sys
    requires ValidConfig(cfg)
  {
    var o := Opened(f, cfg, now, clock);
    Sys(o.rec, o.entries, map[], {}, now)
  }

  function Run(s: Sys, events: seq<Event>, cfg: Config, calendar: Calendar): Sys
    requires ValidConfig(cfg)
    decreases |events|
  {
    if events == [] then s else Run(Step(s, events[0], cfg, calendar), events[1..], cfg, calendar)
  }

  /** The clock does not go back, and a bandit suggests one of the candidates it was given. */
  predicate Fair(s: Sys, e: Event, cfg: Config, calendar: Calendar)
    requires ValidConfig(cfg)
  {
    && s.now <= e.at
    && (e.call.SendNotice? ==>
          && e.at <= e.call.planAt
          && (s.rec.state == NoticePending ==> Slot(s, e.call, cfg, calendar).Some?))
  }

  predicate FairRun(s: Sys, events: seq<Event>, cfg: Config, calendar: Calendar)
    requires ValidConfig(cfg)
    decreases |events|
  {
    events == [] ||
    (Fair(s, events[0], cfg, calendar) && FairRun(Step(s, events[0], cfg, calendar), events[1..], cfg, calendar))
  }

  // ---- The invariant ------------------------------------------------------------------------------

  /** A cap below one is not refused by the loader: the first retry happens before the cap is read. */
  function Budget(cfg: Config): (r: nat)
    ensures r == cfg.maxRetries <==> 1 <= cfg.maxRetries
    ensures 1 <= r
  {
    if cfg.maxRetries < 1 then 1 else cfg.maxRetries
  }

  predicate ControlState(s: State) {
    s == ControlHeld || s == ControlRecovered || s == ControlStillFailed
  }

  predicate Waiting(s: State) { s == RetryScheduled || s == Throttled }

  /** The states a case rests in between calls. */
  predicate Resting(s: State) {
    s == NoticePending || Waiting(s) || s == RetryExecuted || ControlState(s) || Closed(s)
  }

  /** The replay tells the case: state, bucket and retries used. */
  predicate Tells(r: Replay, rec: CaseRecord) {
    && r.state == rec.state
    && Resting(rec.state)
    && r.retries == rec.retriesUsed
    && rec.bucket.Some?
    && (r.treatment <==> rec.bucket == Some(TreatmentBucket))
    && (r.control <==> rec.bucket == Some(ControlBucket))
    && (r.control <==> ControlState(rec.state))
  }

  predicate Closed(s: State) {
    s == Recovered || s == RecoveredNaturally || s == Escalated || s == AfaRequired || s == ResolvedByHuman
  }

  /** The attempts: decisions 1.. for those noticed, log keys 1.. for those executed. */
  ghost predicate Accounted(s: Sys, execs: nat, budget: nat) {
    && (forall n :: n in s.log <==> 1 <= n <= execs)
    && (forall n :: n in s.decisions ==> s.decisions[n].attemptNumber == n)
    && (s.rec.state == NoticePending ==>
          execs == s.rec.retriesUsed < budget && forall n :: n in s.decisions <==> 1 <= n <= execs)
    && (Waiting(s.rec.state) ==>
          execs == s.rec.retriesUsed < budget && forall n :: n in s.decisions <==> 1 <= n <= execs + 1)
    && (s.rec.state == RetryExecuted ==>
          execs == s.rec.retriesUsed + 1 <= budget && forall n :: n in s.decisions <==> 1 <= n <= execs)
    && (ControlState(s.rec.state) ==> execs == 0 == s.rec.retriesUsed)
    && (Closed(s.rec.state) ==> s.rec.retriesUsed <= execs <= s.rec.retriesUsed + 1 && execs <= budget)
  }

  ghost predicate Inv(s: Sys, budget: nat) {
    && s.trail != []
    && Walk(s.trail, Edge)
    && Tells(ReplayOf(s.trail), s.rec)
    && Accounted(s, ReplayOf(s.trail).execs, budget)
  }

  // ---- Every call keeps it ------------------------------------------------------------------------

  lemma ObservedTells(f: NewFailure, now: Instant, deadline: Instant)
    ensures var o := Observed(f, now, deadline);
            Tells(ReplayOf(o.entries), o.rec) && ReplayOf(o.entries).execs == 0 && Walk(o.entries, Edge)
  {
    var entries := Observed(f, now, deadline).entries;
    assert [] + entries == entries;
    ReplayMore([], entries);
    WalkMore([], entries, Edge);
  }

  lemma AdmittedTells(f: NewFailure, now: Instant, to: State, rule: Rule)
    requires to == Escalated || to == AfaRequired || to == NoticePending
    requires BucketNeutral(rule)
    ensures var o := Admitted(f, now, to, rule);
            Tells(ReplayOf(o.entries), o.rec) && ReplayOf(o.entries).execs == 0 && Walk(o.entries, Edge)
  {
    var entries := Admitted(f, now, to, rule).entries;
    var opening := entries[..2];
    assert [] + opening == opening;
    ReplayMore([], opening);
    WalkMore([], opening, Edge);
    assert entries == opening + [entries[2]];
    ReplayOne(opening, entries[2]);
    WalkAppend(opening, entries[2], Edge);
  }

  /** What a handler leaves behind is told by the replay, and only an execution counts as one. */
  predicate Continues(r: Replay, o: Outcome, execs: nat) {
    1 <= |o.entries| <= 2 && Tells(Follow2(r, o.entries), o.rec) && Follow2(r, o.entries).execs == execs
  }

  lemma FailureTells(r: Replay, rec: CaseRecord, business: bool, cfg: Config, at: Instant)
    requires Tells(r, rec)
    ensures Continues(r, AfterFailure(rec, business, cfg, at), r.execs)
  {
  }

  lemma SuccessTells(r: Replay, rec: CaseRecord, amount: int, at: Instant)
    requires Tells(r, rec)
    ensures Continues(r, AfterSuccess(rec, amount, at), r.execs)
  {
  }

  lemma NoticeTells(r: Replay, rec: CaseRecord, at: Instant, slot: Instant)
    requires Tells(r, rec) && rec.state == NoticePending
    ensures Continues(r, AfterNotice(rec, at, slot), r.execs)
  {
  }

  lemma ExecutionTells(r: Replay, rec: CaseRecord, at: Instant)
    requires Tells(r, rec) && rec.state == RetryScheduled
    ensures Continues(r, AfterExecution(rec, at), r.execs + 1)
  {
  }

  lemma ThrottleTells(r: Replay, rec: CaseRecord, at: Instant)
    requires Tells(r, rec)
    ensures rec.state == RetryScheduled ==> Continues(r, AfterThrottle(rec, at), r.execs)
    ensures rec.state == Throttled ==> Continues(r, AfterRelease(rec, at), r.execs)
  {
  }

  lemma ClosingTells(r: Replay, rec: CaseRecord, note: ResolutionNote, at: Instant)
    requires Tells(r, rec)
    ensures rec.state == RetryScheduled ==> Continues(r, AfterDistress(rec, at), r.execs)
    ensures rec.state == Escalated ==> Continues(r, AfterResolution(rec, note, at), r.execs)
  {
  }

  lemma StepKeeps(s: Sys, e: Event, cfg: Config, calendar: Calendar)
    requires ValidConfig(cfg) && Fair(s, e, cfg, calendar)
    ensures var t, o := Step(s, e, cfg, calendar), Kept(s, e, cfg, calendar);
            if o.None? then t.rec == s.rec && t.trail == s.trail
            else t.rec == o.value.rec && t.trail == s.trail + o.value.entries
  {
  }

  lemma StepIsKept(s: Sys, e: Event, cfg: Config, calendar: Calendar)
    requires ValidConfig(cfg) && !e.call.SendNotice? && !e.call.Execute?
    ensures var o, t := Kept(s, e, cfg, calendar), s.(now := e.at);
            Step(s, e, cfg, calendar) == if o.Some? then Keep(t, o.value) else t
  {
  }

  lemma StepExecutes(t: Sys, e: Event, cfg: Config, calendar: Calendar)
    requires ValidConfig(cfg) && e.call.Execute?
    ensures Step(t, e, cfg, calendar) == ExecuteAttempt(t.(now := e.at), e.call.attempt, e.at)
  {
  }

  lemma StepReplays(s: Sys, e: Event, cfg: Config, calendar: Calendar)
    requires ValidConfig(cfg) && Fair(s, e, cfg, calendar)
    requires s.trail != [] && Tells(ReplayOf(s.trail), s.rec)
    ensures var t := Step(s, e, cfg, calendar);
            && t.trail != [] && Tells(ReplayOf(t.trail), t.rec)
            && ReplayOf(t.trail).execs == ReplayOf(s.trail).execs + (if Executes(s, e.call) then 1 else 0)
  {
    StepKeeps(s, e, cfg, calendar);
    var r := ReplayOf(s.trail);
    var o := Kept(s, e, cfg, calendar);
    if o.Some? {
      match e.call {
        case PaymentFailed(business) => FailureTells(r, s.rec, business, cfg, e.at);
        case PaymentSucceeded(amount) => SuccessTells(r, s.rec, amount, e.at);
        case SendNotice(_, _, _, _, _) => NoticeTells(r, s.rec, e.at, Slot(s, e.call, cfg, calendar).value);
        case Execute(_) => ExecutionTells(r, s.rec, e.at);
        case Throttle | Release => ThrottleTells(r, s.rec, e.at);
        case DistressBlock => ClosingTells(r, s.rec, WrittenOff, e.at);
        case Resolve(note) => ClosingTells(r, s.rec, note, e.at);
      }
      ReplayMore(s.trail, o.value.entries);
    }
  }

  /** The entries of every outcome are edges of the graph, or loops, from the state before the call. */
  lemma FailureWalks(rec: CaseRecord, business: bool, cfg: Config, at: Instant)
    ensures WalkSteps(rec.state, AfterFailure(rec, business, cfg, at).entries, Edge)
  {
  }

  lemma SuccessWalks(rec: CaseRecord, amount: int, at: Instant)
    ensures WalkSteps(rec.state, AfterSuccess(rec, amount, at).entries, Edge)
  {
  }

  lemma TriggerWalks(s: Sys, e: Event, cfg: Config, calendar: Calendar)
    requires ValidConfig(cfg) && Kept(s, e, cfg, calendar).Some?
    requires !e.call.PaymentFailed? && !e.call.PaymentSucceeded?
    ensures var entries := Kept(s, e, cfg, calendar).value.entries;
            1 <= |entries| <= 2 && WalkSteps(s.rec.state, entries, Edge)
  {
  }

  lemma KeptWalks(s: Sys, e: Event, cfg: Config, calendar: Calendar)
    requires ValidConfig(cfg) && Kept(s, e, cfg, calendar).Some?
    ensures var entries := Kept(s, e, cfg, calendar).value.entries;
            1 <= |entries| <= 2 && WalkSteps(s.rec.state, entries, Edge)
  {
    match e.call {
      case PaymentFailed(business) => FailureWalks(s.rec, business, cfg, e.at);
      case PaymentSucceeded(amount) => SuccessWalks(s.rec, amount, e.at);
      case _ => TriggerWalks(s, e, cfg, calendar);
    }
  }

  lemma StepWalks(s: Sys, e: Event, cfg: Config, calendar: Calendar)
    requires ValidConfig(cfg) && Fair(s, e, cfg, calendar)
    requires Walk(s.trail, Edge) && StateAt(s.trail, |s.trail|) == s.rec.state
    ensures Walk(Step(s, e, cfg, calendar).trail, Edge)
  {
    StepKeeps(s, e, cfg, calendar);
    var o := Kept(s, e, cfg, calendar);
    if o.Some? {
      KeptWalks(s, e, cfg, calendar);
      WalkMore(s.trail, o.value.entries, Edge);
    }
  }

  lemma FailureAccounts(s: Sys, business: bool, cfg: Config, at: Instant, execs: nat)
    requires Accounted(s, execs, Budget(cfg)) && Resting(s.rec.state)
    ensures Accounted(Keep(s, AfterFailure(s.rec, business, cfg, at)), execs, Budget(cfg))
  {
  }

  lemma SuccessAccounts(s: Sys, amount: int, at: Instant, execs: nat, budget: nat)
    requires Accounted(s, execs, budget) && Resting(s.rec.state)
    ensures Accounted(Keep(s, AfterSuccess(s.rec, amount, at)), execs, budget)
  {
  }

  lemma NotifyAccounts(s: Sys, at: Instant, slot: Instant, execs: nat, budget: nat)
    requires Accounted(s, execs, budget) && s.rec.state == NoticePending
    ensures Accounted(Notify(s, at, slot), execs, budget)
  {
  }

  lemma NoticeStepAccounts(s: Sys, e: Event, cfg: Config, calendar: Calendar, execs: nat)
    requires ValidConfig(cfg) && e.call.SendNotice? && Fair(s, e, cfg, calendar)
    requires Accounted(s, execs, Budget(cfg))
    ensures Accounted(Step(s, e, cfg, calendar), execs, Budget(cfg))
  {
    if s.rec.state == NoticePending {
      NotifyAccounts(s.(now := e.call.planAt), e.at, Slot(s, e.call, cfg, calendar).value, execs, Budget(cfg));
    }
  }

  lemma ExecuteAccounts(s: Sys, at: Instant, n: int, execs: nat, budget: nat)
    requires Accounted(s, execs, budget)
    ensures Accounted(ExecuteAttempt(s, n, at), execs + (if Executes(s, Execute(n)) then 1 else 0), budget)
  {
  }

  lemma TriggersAccount(s: Sys, e: Event, cfg: Config, calendar: Calendar, execs: nat)
    requires ValidConfig(cfg)
    requires e.call.Throttle? || e.call.Release? || e.call.DistressBlock? || e.call.Resolve?
    requires Accounted(s, execs, Budget(cfg))
    ensures Accounted(Step(s, e, cfg, calendar), execs, Budget(cfg))
  {
  }

  lemma StepAccounts(s: Sys, e: Event, cfg: Config, calendar: Calendar, execs: nat)
    requires ValidConfig(cfg) && Fair(s, e, cfg, calendar)
    requires Accounted(s, execs, Budget(cfg)) && Resting(s.rec.state)
    ensures Accounted(Step(s, e, cfg, calendar), execs + (if Executes(s, e.call) then 1 else 0), Budget(cfg))
  {
    match e.call
    case PaymentFailed(business) => FailureAccounts(s.(now := e.at), business, cfg, e.at, execs);
    case PaymentSucceeded(amount) => SuccessAccounts(s.(now := e.at), amount, e.at, execs, Budget(cfg));
    case SendNotice(_, _, _, _, _) => NoticeStepAccounts(s, e, cfg, calendar, execs);
    case Execute(n) => ExecuteAccounts(s.(now := e.at), e.at, n, execs, Budget(cfg));
    case _ => TriggersAccount(s, e, cfg, calendar, execs);
  }

  lemma StepKeepsInv(s: Sys, e: Event, cfg: Config, calendar: Calendar)
    requires ValidConfig(cfg) && Inv(s, Budget(cfg)) && Fair(s, e, cfg, calendar)
    ensures Inv(Step(s, e, cfg, calendar), Budget(cfg))
  {
    StepReplays(s, e, cfg, calendar);
    ReplayCounts(s.trail);
    StepWalks(s, e, cfg, calendar);
    StepAccounts(s, e, cfg, calendar, ReplayOf(s.trail).execs);
  }

  lemma FreshSysInv(o: Outcome, now: Instant, budget: nat)
    requires o.entries != [] && Tells(ReplayOf(o.entries), o.rec) && Walk(o.entries, Edge)
    requires ReplayOf(o.entries).execs == 0 == o.rec.retriesUsed && 1 <= budget
    requires o.rec.state in {ControlHeld, Escalated, AfaRequired, NoticePending}
    ensures Inv(Sys(o.rec, o.entries, map[], {}, now), budget)
  {
  }

  lemma OpenKeepsInv(f: NewFailure, cfg: Config, now: Instant, clock: Clock)
    requires ValidConfig(cfg)
    ensures Inv(Open(f, cfg, now, clock), Budget(cfg))
  {
    if f.isControl {
      var deadline := now + ResolveDelay(clock, cfg.controlWindow);
      ObservedTells(f, now, deadline);
      FreshSysInv(Observed(f, now, deadline), now, Budget(cfg));
    } else {
      var (to, rule) := Triage(f, cfg);
      AdmittedTells(f, now, to, rule);
      FreshSysInv(Admitted(f, now, to, rule), now, Budget(cfg));
    }
  }

  lemma {:induction false} RunKeepsInv(s: Sys, events: seq<Event>, cfg: Config, calendar: Calendar)
    requires ValidConfig(cfg) && Inv(s, Budget(cfg)) && FairRun(s, events, cfg, calendar)
    ensures Inv(Run(s, events, cfg, calendar), Budget(cfg))
    decreases |events|
  {
    if events == [] {
    } else {
      StepKeepsInv(s, events[0], cfg, calendar);
      RunKeepsInv(Step(s, events[0], cfg, calendar), events[1..], cfg, calendar);
    }
  }
}
