/** The recovery state machine (app/core/state_machine.py) and the two endpoint transitions that act on
    a case beside it (app/main.py). The functions say what each handler does to the case record and
    which audit entries it emits; the methods of RecoveryCase do it in place. */
module CaseMachine {
  import opened Models
  import opened Slots

  const RULE_VERSION: nat := 2

  /** What a handler leaves behind: the case and the entries to append, in order. */
  datatype Outcome = Outcome(rec: CaseRecord, entries: seq<AuditEntry>)

  /** A first failure, already parsed and classified; `isControl` is the hash split of the case id. */
  datatype NewFailure = NewFailure(
    caseId: CaseId, mandateId: string, instrumentId: string, amount: int, category: string,
    business: bool, isControl: bool)

  function Entry(caseId: CaseId, from: State, to: State, rule: Rule, now: Instant): AuditEntry {
    AuditEntry(caseId, from, to, rule, RULE_VERSION, now, Agent, None)
  }

  function Move(rec: CaseRecord, to: State, rule: Rule, now: Instant): Outcome {
    Outcome(rec.(state := to), [Entry(rec.caseId, rec.state, to, rule, now)])
  }

  function Ignore(rec: CaseRecord, rule: Rule, now: Instant): Outcome {
    Outcome(rec, [Entry(rec.caseId, rec.state, rec.state, rule, now)])
  }

  // ---- What each handler does ------------------------------------------------------------------

  function Blank(f: NewFailure, now: Instant): CaseRecord {
    var mandate := if f.mandateId != "" then f.mandateId else f.caseId;
    CaseRecord(f.caseId, mandate, f.instrumentId, f.amount, now, 0, Received, None, None, None, None)
  }

  /** A control case: observed until the deadline, no action taken. */
  function Observed(f: NewFailure, now: Instant, deadline: Instant): Outcome {
    Outcome(
      Blank(f, now).(state := ControlHeld, bucket := Some(ControlBucket), controlOutcome := Some(Unknown),
                     controlDeadline := Some(deadline)),
      [Entry(f.caseId, Received, Classified, CreateCase, now),
       Entry(f.caseId, Classified, ControlHeld, AssignBucketControl, now)])
  }

  function Admitted(f: NewFailure, now: Instant, to: State, rule: Rule): Outcome {
    Outcome(
      Blank(f, now).(state := to, bucket := Some(TreatmentBucket)),
      [Entry(f.caseId, Received, Classified, CreateCase, now),
       Entry(f.caseId, Classified, Treatment, AssignBucketTreatment, now),
       Entry(f.caseId, Treatment, to, rule, now)])
  }

  /** A hard decline is escalated, an amount above the category ceiling needs authentication. */
  function Triage(f: NewFailure, cfg: Config): (r: (State, Rule))
    requires ValidConfig(cfg)
    ensures r.0 == Escalated || r.0 == AfaRequired || r.0 == NoticePending
    ensures r.0 == NoticePending ==> f.amount <= CeilingFor(cfg, f.category)
    ensures BucketNeutral(r.1)
  {
    if f.business then (Escalated, HardDecline)
    else if f.amount > CeilingFor(cfg, f.category) then (AfaRequired, AfaThresholdExceeded)
    else (NoticePending, TechnicalDecline)
  }

  predicate BucketNeutral(rule: Rule) {
    rule != AssignBucketTreatment && rule != AssignBucketControl
  }

  function Opened(f: NewFailure, cfg: Config, now: Instant, clock: Clock): Outcome
    requires ValidConfig(cfg)
  {
    if f.isControl then Observed(f, now, now + ResolveDelay(clock, cfg.controlWindow))
    else Admitted(f, now, Triage(f, cfg).0, Triage(f, cfg).1)
  }

  function AfterFailure(rec: CaseRecord, business: bool, cfg: Config, now: Instant): Outcome {
    if rec.state == ControlHeld then
      Move(rec.(controlOutcome := Some(StillFailed)), ControlStillFailed, ControlFailureSignal, now)
    else if rec.state != RetryExecuted then
      Ignore(rec, UnexpectedFailureEvent, now)
    else
      var used := rec.retriesUsed + 1;
      var (to, rule) :=
        if used >= cfg.maxRetries || business then (Escalated, RetryCapOrBusiness)
        else (NoticePending, TechnicalDeclineRetryEligible);
      Outcome(
        rec.(state := to, retriesUsed := used),
        [Entry(rec.caseId, RetryExecuted, RetryEval, ExecutionOutcome, now),
         Entry(rec.caseId, RetryEval, to, rule, now)])
  }

  function AfterSuccess(rec: CaseRecord, amount: int, now: Instant): Outcome {
    if amount != rec.originalAmount then Ignore(rec, AmountMismatch, now)
    else if rec.bucket == Some(ControlBucket) then
      if rec.state != ControlHeld then Ignore(rec, UnexpectedSuccessEvent, now)
      else Move(rec.(controlOutcome := Some(RecoveredWithoutAgent)), ControlRecovered, NaturalRecovery, now)
    else
      match rec.state
      case RetryExecuted => Move(rec, Recovered, AgentRecovered, now)
      case NoticePending | NoticeSent | RetryScheduled | Throttled =>
        Move(rec, RecoveredNaturally, NaturalRecoveryTreatment, now)
      case Escalated | AfaRequired => Move(rec, Recovered, LateSuccessReconciled, now)
      case _ => Ignore(rec, UnexpectedSuccessEvent, now)
  }

  /** The two entries of a notice; the second one carries the slot. */
  function AfterNotice(rec: CaseRecord, now: Instant, slot: Instant): Outcome {
    Outcome(
      rec.(state := RetryScheduled),
      [Entry(rec.caseId, NoticePending, NoticeSent, NoticeSentRule, now),
       Entry(rec.caseId, NoticeSent, RetryScheduled, ScheduleRetry, now).(scheduledAt := Some(slot))])
  }

  function AfterExecution(rec: CaseRecord, now: Instant): Outcome {
    Move(rec, RetryExecuted, CommitApproved, now)
  }

  function AfterThrottle(rec: CaseRecord, now: Instant): Outcome { Move(rec, Throttled, ThrottleApplied, now) }

  function AfterRelease(rec: CaseRecord, now: Instant): Outcome { Move(rec, RetryScheduled, ThrottleReleased, now) }

  /** The distress gate of the execute endpoint. */
  function AfterDistress(rec: CaseRecord, now: Instant): Outcome {
    Outcome(rec.(state := Escalated),
            [AuditEntry(rec.caseId, RetryScheduled, Escalated, DistressSignal, 1, now, Agent, None)])
  }

  /** The escalation queue's resolution. */
  function AfterResolution(rec: CaseRecord, note: ResolutionNote, now: Instant): Outcome {
    Outcome(rec.(state := ResolvedByHuman, resolutionNote := Some(note)),
            [AuditEntry(rec.caseId, Escalated, ResolvedByHuman, HumanResolution, 1, now, Human, None)])
  }

  // ---- The case object -------------------------------------------------------------------------

  datatype Status = Completed | ValueError | AssertionError

  class RecoveryCase {
    const caseId: CaseId
    const mandateId: string
    const instrumentId: string
    const originalAmount: int
    const openedAt: Instant
    var retriesUsed: nat
    var state: State
    var bucket: Option<Bucket>
    var controlOutcome: Option<ControlOutcome>
    var controlDeadline: Option<Instant>
    var resolutionNote: Option<ResolutionNote>

    ghost function Record(): CaseRecord
      reads this
    {
      CaseRecord(caseId, mandateId, instrumentId, originalAmount, openedAt, retriesUsed, state, bucket,
                 controlOutcome, controlDeadline, resolutionNote)
    }

    constructor (caseId: CaseId, mandateId: string, instrumentId: string, originalAmount: int, openedAt: Instant)
      ensures Record() == CaseRecord(caseId, mandateId, instrumentId, originalAmount, openedAt, 0, Received,
                                     None, None, None, None)
    {
      this.caseId, this.mandateId, this.instrumentId := caseId, mandateId, instrumentId;
      this.originalAmount, this.openedAt := originalAmount, openedAt;
      retriesUsed, state, bucket := 0, Received, None;
      controlOutcome, controlDeadline, resolutionNote := None, None, None;
    }

    /** The bucket is set once: a different one is refused and nothing changes. */
    method AssignBucket(b: Bucket) returns (ok: bool)
      modifies this`bucket
      ensures ok <==> old(bucket) == None || old(bucket) == Some(b)
      ensures bucket == if ok then Some(b) else old(bucket)
    {
      if bucket != None && bucket != Some(b) {
        return false;
      }
      bucket := Some(b);
      return true;
    }

    static method HandleNewFailure(f: NewFailure, cfg: Config, now: Instant, clock: Clock)
      returns (c: RecoveryCase, audit: seq<AuditEntry>)
      requires ValidConfig(cfg)
      ensures fresh(c)
      ensures Outcome(c.Record(), audit) == Opened(f, cfg, now, clock)
    {
      var mandate := if f.mandateId != "" then f.mandateId else f.caseId;
      c := new RecoveryCase(f.caseId, mandate, f.instrumentId, f.amount, now);
      audit := [Entry(c.caseId, Received, Classified, CreateCase, now)];
      if f.isControl {
        var _ := c.AssignBucket(ControlBucket);
        c.state := ControlHeld;
        c.controlOutcome := Some(Unknown);
        c.controlDeadline := Some(now + ResolveDelay(clock, cfg.controlWindow));
        audit := audit + [Entry(c.caseId, Classified, ControlHeld, AssignBucketControl, now)];
        return;
      }
      var _ := c.AssignBucket(TreatmentBucket);
      audit := audit + [Entry(c.caseId, Classified, Treatment, AssignBucketTreatment, now)];
      if f.business {
        c.state := Escalated;
        audit := audit + [Entry(c.caseId, Treatment, Escalated, HardDecline, now)];
        return;
      }
      if c.originalAmount > CeilingFor(cfg, f.category) {
        c.state := AfaRequired;
        audit := audit + [Entry(c.caseId, Treatment, AfaRequired, AfaThresholdExceeded, now)];
        return;
      }
      c.state := NoticePending;
      audit := audit + [Entry(c.caseId, Treatment, NoticePending, TechnicalDecline, now)];
    }

    method HandleExistingFailure(business: bool, cfg: Config, now: Instant) returns (audit: seq<AuditEntry>)
      modifies this`state, this`retriesUsed, this`controlOutcome
      ensures Outcome(Record(), audit) == AfterFailure(old(Record()), business, cfg, now)
    {
      if state == ControlHeld {
        state := ControlStillFailed;
        controlOutcome := Some(StillFailed);
        return [Entry(caseId, ControlHeld, ControlStillFailed, ControlFailureSignal, now)];
      }
      if state != RetryExecuted {
        return [Entry(caseId, state, state, UnexpectedFailureEvent, now)];
      }
      retriesUsed := retriesUsed + 1;
      audit := [Entry(caseId, RetryExecuted, RetryEval, ExecutionOutcome, now)];
      if retriesUsed >= cfg.maxRetries || business {
        state := Escalated;
        audit := audit + [Entry(caseId, RetryEval, Escalated, RetryCapOrBusiness, now)];
        return;
      }
      state := NoticePending;
      audit := audit + [Entry(caseId, RetryEval, NoticePending, TechnicalDeclineRetryEligible, now)];
    }

    method HandlePaymentSuccess(amount: int, now: Instant) returns (audit: seq<AuditEntry>)
      modifies this`state, this`controlOutcome
      ensures Outcome(Record(), audit) == AfterSuccess(old(Record()), amount, now)
    {
      if amount != originalAmount {
        return [Entry(caseId, state, state, AmountMismatch, now)];
      }
      if bucket == Some(ControlBucket) {
        if state != ControlHeld {
          return [Entry(caseId, state, state, UnexpectedSuccessEvent, now)];
        }
        state := ControlRecovered;
        controlOutcome := Some(RecoveredWithoutAgent);
        return [Entry(caseId, ControlHeld, ControlRecovered, NaturalRecovery, now)];
      }
      var fromState := state;
      if state == RetryExecuted {
        state := Recovered;
        return [Entry(caseId, RetryExecuted, Recovered, AgentRecovered, now)];
      }
      if state in {NoticePending, NoticeSent, RetryScheduled, Throttled} {
        state := RecoveredNaturally;
        return [Entry(caseId, fromState, RecoveredNaturally, NaturalRecoveryTreatment, now)];
      }
      if state in {Escalated, AfaRequired} {
        state := Recovered;
        return [Entry(caseId, fromState, Recovered, LateSuccessReconciled, now)];
      }
      return [Entry(caseId, state, state, UnexpectedSuccessEvent, now)];
    }

    /** The clock is read twice: `now` for the entries, `planAt` inside the scheduler. An illegal
        suggestion fails the scheduler's assertion after the state was already changed. */
    method MarkNoticeSent(cfg: Config, now: Instant, planAt: Instant, clock: Clock, insufficientFunds: bool,
                          previous: Option<Instant>, suggestion: Option<Instant>, calendar: Calendar)
      returns (status: Status, audit: seq<AuditEntry>, decision: Option<RetryDecision>)
      requires ValidConfig(cfg)
      modifies this`state
      ensures old(state) != NoticePending ==> status == ValueError && Record() == old(Record())
      ensures old(state) == NoticePending ==>
                var slot := ScheduledAt(cfg, retriesUsed, previous, planAt, clock, insufficientFunds, suggestion,
                                        calendar);
                if slot.Some? then
                  && status == Completed
                  && Outcome(Record(), audit) == AfterNotice(old(Record()), now, slot.value)
                  && decision == Some(RetryDecision(caseId, retriesUsed + 1, slot.value, None))
                else
                  status == AssertionError && Record() == old(Record()).(state := NoticeSent)
      ensures status != Completed ==> audit == [] && decision == None
    {
      audit, decision := [], None;
      if state != NoticePending {
        return ValueError, audit, decision;
      }
      state := NoticeSent;
      var entries := [Entry(caseId, NoticePending, NoticeSent, NoticeSentRule, now)];
      var slot := ComputeScheduledAt(cfg, retriesUsed, previous, planAt, clock, insufficientFunds, suggestion,
                                     calendar);
      if slot == None {
        return AssertionError, audit, decision;
      }
      decision := Some(RetryDecision(caseId, retriesUsed + 1, slot.value, None));
      state := RetryScheduled;
      var scheduled := Entry(caseId, NoticeSent, RetryScheduled, ScheduleRetry, now);
      audit := entries + [scheduled.(scheduledAt := Some(decision.value.scheduledAt))];
      status := Completed;
    }

    /** `committed` is the answer of the commit backend for this decision. */
    method AttemptExecution(committed: bool, now: Instant) returns (status: Status, audit: seq<AuditEntry>)
      modifies this`state
      ensures status == if old(state) == RetryScheduled then Completed else ValueError
      ensures if old(state) == RetryScheduled && committed
              then Outcome(Record(), audit) == AfterExecution(old(Record()), now)
              else Outcome(Record(), audit) == Outcome(old(Record()), [])
    {
      if state != RetryScheduled {
        return ValueError, [];
      }
      if !committed {
        return Completed, [];
      }
      state := RetryExecuted;
      return Completed, [Entry(caseId, RetryScheduled, RetryExecuted, CommitApproved, now)];
    }

    method ApplyThrottle(now: Instant) returns (status: Status, audit: seq<AuditEntry>)
      modifies this`state
      ensures status == if old(state) == RetryScheduled then Completed else ValueError
      ensures Outcome(Record(), audit) == if old(state) == RetryScheduled then AfterThrottle(old(Record()), now)
                                          else Outcome(old(Record()), [])
    {
      if state != RetryScheduled {
        return ValueError, [];
      }
      state := Throttled;
      return Completed, [Entry(caseId, RetryScheduled, Throttled, ThrottleApplied, now)];
    }

    method ReleaseThrottle(now: Instant) returns (status: Status, audit: seq<AuditEntry>)
      modifies this`state
      ensures status == if old(state) == Throttled then Completed else ValueError
      ensures Outcome(Record(), audit) == if old(state) == Throttled then AfterRelease(old(Record()), now)
                                          else Outcome(old(Record()), [])
    {
      if state != Throttled {
        return ValueError, [];
      }
      state := RetryScheduled;
      return Completed, [Entry(caseId, Throttled, RetryScheduled, ThrottleReleased, now)];
    }

    method ResolveEscalation(note: ResolutionNote, now: Instant) returns (status: Status, audit: seq<AuditEntry>)
      modifies this`state, this`resolutionNote
      ensures status == if old(state) == Escalated then Completed else ValueError
      ensures Outcome(Record(), audit) == if old(state) == Escalated then AfterResolution(old(Record()), note, now)
                                          else Outcome(old(Record()), [])
    {
      if state != Escalated {
        return ValueError, [];
      }
      state := ResolvedByHuman;
      resolutionNote := Some(note);
      return Completed, [AuditEntry(caseId, Escalated, ResolvedByHuman, HumanResolution, 1, now, Human, None)];
    }
  }
}
