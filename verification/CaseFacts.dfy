/** What the runs of a case, of the machine and through the service, leave on record: whose entries the
    trail holds, when they were written and why, and what the record and the decisions say. */
module CaseFacts {
  import opened Models
  import opened Slots
  import opened CaseMachine
  import opened TrailMonitor
  import opened CaseRuns
  import opened RunResults
  import opened Reconciliation
  import opened EndpointRuns

  // ---- Entries that explain themselves --------------------------------------------------------------

  predicate Moves(e: AuditEntry, from: State, to: State) { e.from == from && e.to == to }

  /** The moves a rule is cited for. */
  predicate Cited(e: AuditEntry) {
    match e.rule
    case CreateCase => Moves(e, Received, Classified)
    case AssignBucketTreatment => Moves(e, Classified, Treatment)
    case AssignBucketControl => Moves(e, Classified, ControlHeld)
    case HardDecline => Moves(e, Treatment, Escalated)
    case AfaThresholdExceeded => Moves(e, Treatment, AfaRequired)
    case TechnicalDecline => Moves(e, Treatment, NoticePending)
    case ControlFailureSignal => Moves(e, ControlHeld, ControlStillFailed)
    case UnexpectedFailureEvent => e.from == e.to && e.from != ControlHeld && e.from != RetryExecuted
    case ExecutionOutcome => Moves(e, RetryExecuted, RetryEval)
    case RetryCapOrBusiness => Moves(e, RetryEval, Escalated)
    case TechnicalDeclineRetryEligible => Moves(e, RetryEval, NoticePending)
    case NoticeSentRule => Moves(e, NoticePending, NoticeSent)
    case ScheduleRetry => Moves(e, NoticeSent, RetryScheduled)
    case CommitApproved => Moves(e, RetryScheduled, RetryExecuted)
    case CommitEffectApplied => Moves(e, RetryScheduled, RetryExecuted)
    case ThrottleApplied => Moves(e, RetryScheduled, Throttled)
    case ThrottleReleased => Moves(e, Throttled, RetryScheduled)
    case AmountMismatch => e.from == e.to
    case UnexpectedSuccessEvent => e.from == e.to && Finished(e.from)
    case NaturalRecovery => Moves(e, ControlHeld, ControlRecovered)
    case NaturalRecoveryTreatment =>
      e.to == RecoveredNaturally && (e.from == NoticePending || e.from == RetryScheduled || e.from == Throttled)
    case AgentRecovered => Moves(e, RetryExecuted, Recovered)
    case LateSuccessReconciled => e.to == Recovered && (e.from == Escalated || e.from == AfaRequired)
    case DistressSignal => Moves(e, RetryScheduled, Escalated)
    case HumanResolution => Moves(e, Escalated, ResolvedByHuman)
  }

  /** No payment can change these states any more. */
  predicate Finished(state: State) {
    || state == Recovered || state == RecoveredNaturally || state == ControlRecovered
    || state == ResolvedByHuman || state == ControlStillFailed
  }

  /** Only a human resolution is a human's, only a schedule carries a slot, and only the endpoints' own
      entries cite the first version of the rules. */
  predicate Explained(e: AuditEntry) {
    && Cited(e)
    && (e.actor == Human <==> e.rule == HumanResolution)
    && (e.scheduledAt.Some? <==> e.rule == ScheduleRetry)
    && e.ruleVersion == if e.rule in {CommitEffectApplied, DistressSignal, HumanResolution} then 1 else 2
  }

  /** Entries of one case, written at one instant. */
  predicate WrittenAt(entries: seq<AuditEntry>, c: CaseId, at: Instant) {
    Own(entries, c) && forall i :: 0 <= i < |entries| ==> entries[i].timestamp == at && Explained(entries[i])
  }

  /** A trail of one case, explained, in order of time. */
  predicate WellKept(trail: seq<AuditEntry>, c: CaseId, since: Instant, now: Instant) {
    && Own(trail, c)
    && (forall i :: 0 <= i < |trail| ==> Explained(trail[i]) && since <= trail[i].timestamp <= now)
    && (forall i, j :: 0 <= i < j < |trail| ==> trail[i].timestamp <= trail[j].timestamp)
  }

  lemma WrittenIsKept(trail: seq<AuditEntry>, more: seq<AuditEntry>, c: CaseId, since: Instant, before: Instant,
                      at: Instant, now: Instant)
    requires WellKept(trail, c, since, before) && WrittenAt(more, c, at) && since <= before <= at <= now
    ensures WellKept(trail + more, c, since, now)
  {
  }

  // ---- What no call changes -------------------------------------------------------------------------

  /** Who the case is: fixed at its opening. */
  datatype Identity = Identity(
    caseId: CaseId, mandateId: string, instrumentId: string, amount: int, openedAt: Instant,
    bucket: Option<Bucket>, deadline: Option<Instant>)

  function IdentityOf(rec: CaseRecord): Identity {
    Identity(rec.caseId, rec.mandateId, rec.instrumentId, rec.originalAmount, rec.openedAt, rec.bucket,
             rec.controlDeadline)
  }

  /** The identity a first failure gives its case. */
  function OpenedIdentity(f: NewFailure, openedAt: Instant, openClock: Clock, cfg: Config): Identity
    requires ValidConfig(cfg)
  {
    Identity(f.caseId, if f.mandateId == "" then f.caseId else f.mandateId, f.instrumentId, f.amount, openedAt,
             Some(if f.isControl then ControlBucket else TreatmentBucket),
             if f.isControl then Some(openedAt + ResolveDelay(openClock, cfg.controlWindow)) else None)
  }

  /** The bucket and the state of a case between calls. */
  predicate Rested(rec: CaseRecord) {
    Resting(rec.state) && rec.bucket.Some? && (rec.bucket == Some(ControlBucket) <==> ControlState(rec.state))
  }

  /** What a handler leaves of a case: the same case, and entries written at once. */
  predicate Sound(rec: CaseRecord, o: Outcome, at: Instant) {
    IdentityOf(o.rec) == IdentityOf(rec) && WrittenAt(o.entries, rec.caseId, at)
  }

  lemma FailureIsSound(rec: CaseRecord, business: bool, cfg: Config, at: Instant)
    requires Rested(rec)
    ensures Sound(rec, AfterFailure(rec, business, cfg, at), at)
  {
  }

  lemma SuccessIsSound(rec: CaseRecord, amount: int, at: Instant)
    requires Rested(rec)
    ensures Sound(rec, AfterSuccess(rec, amount, at), at)
  {
  }

  lemma RetryIsSound(rec: CaseRecord, at: Instant, slot: Instant)
    ensures Sound(rec, AfterNotice(rec, at, slot), at)
    ensures rec.state == RetryScheduled ==> Sound(rec, AfterExecution(rec, at), at)
  {
  }

  lemma ThrottleIsSound(rec: CaseRecord, at: Instant)
    ensures rec.state == RetryScheduled ==> Sound(rec, AfterThrottle(rec, at), at)
    ensures rec.state == Throttled ==> Sound(rec, AfterRelease(rec, at), at)
  {
  }

  lemma ClosingIsSound(rec: CaseRecord, note: ResolutionNote, at: Instant)
    ensures Sound(rec, AfterDistress(rec, at), at)
    ensures Sound(rec, AfterResolution(rec, note, at), at)
  {
  }

  lemma KeptIsSound(s: Sys, e: Event, cfg: Config, calendar: Calendar)
    requires ValidConfig(cfg) && Rested(s.rec) && Kept(s, e, cfg, calendar).Some?
    ensures Sound(s.rec, Kept(s, e, cfg, calendar).value, e.at)
  {
    match e.call
    case PaymentFailed(business) => FailureIsSound(s.rec, business, cfg, e.at);
    case PaymentSucceeded(amount) => SuccessIsSound(s.rec, amount, e.at);
    case SendNotice(_, _, _, _, _) => RetryIsSound(s.rec, e.at, Slot(s, e.call, cfg, calendar).value);
    case Execute(_) => RetryIsSound(s.rec, e.at, 0);
    case Throttle | Release => ThrottleIsSound(s.rec, e.at);
    case DistressBlock => ClosingIsSound(s.rec, WrittenOff, e.at);
    case Resolve(note) => ClosingIsSound(s.rec, note, e.at);
  }

  lemma OpeningIsSound(f: NewFailure, cfg: Config, now: Instant, clock: Clock)
    requires ValidConfig(cfg)
    ensures var o := Opened(f, cfg, now, clock);
            && IdentityOf(o.rec) == OpenedIdentity(f, now, clock, cfg)
            && o.rec.resolutionNote == None
            && WrittenAt(o.entries, f.caseId, now)
  {
  }

  /** The record is that of the case opened, and the trail is kept well, up to now. */
  predicate OnRecord(s: Sys, id: Identity) {
    IdentityOf(s.rec) == id && id.openedAt <= s.now && WellKept(s.trail, id.caseId, id.openedAt, s.now)
  }

  lemma OpensOnRecord(f: NewFailure, cfg: Config, now: Instant, clock: Clock)
    requires ValidConfig(cfg)
    ensures OnRecord(Open(f, cfg, now, clock), OpenedIdentity(f, now, clock, cfg))
  {
    OpeningIsSound(f, cfg, now, clock);
  }

  lemma StepStaysOnRecord(s: Sys, e: Event, id: Identity, cfg: Config, calendar: Calendar)
    requires ValidConfig(cfg) && Fair(s, e, cfg, calendar) && Rested(s.rec) && OnRecord(s, id)
    ensures OnRecord(Step(s, e, cfg, calendar), id)
  {
    StepKeeps(s, e, cfg, calendar);
    StepTells(s, e, cfg, calendar);
    var t, o := Step(s, e, cfg, calendar), Kept(s, e, cfg, calendar);
    if o.Some? {
      KeptIsSound(s, e, cfg, calendar);
      WrittenIsKept(s.trail, o.value.entries, id.caseId, id.openedAt, s.now, e.at, t.now);
    }
  }

  lemma StepTells(s: Sys, e: Event, cfg: Config, calendar: Calendar)
    requires ValidConfig(cfg)
    ensures Step(s, e, cfg, calendar).now == if e.call.SendNotice? then e.call.planAt else e.at
  {
  }

  lemma TellsRested(r: Replay, rec: CaseRecord)
    requires Tells(r, rec)
    ensures Rested(rec)
  {
  }

  lemma {:induction false} RunStaysOnRecord(s: Sys, events: seq<Event>, id: Identity, cfg: Config, calendar: Calendar)
    requires ValidConfig(cfg) && Inv(s, Budget(cfg)) && FairRun(s, events, cfg, calendar) && OnRecord(s, id)
    ensures OnRecord(Run(s, events, cfg, calendar), id)
    decreases |events|
  {
    if events == [] {
    } else {
      TellsRested(ReplayOf(s.trail), s.rec);
      StepStaysOnRecord(s, events[0], id, cfg, calendar);
      StepKeepsInv(s, events[0], cfg, calendar);
      RunStaysOnRecord(Step(s, events[0], cfg, calendar), events[1..], id, cfg, calendar);
    }
  }

  /** Every run of the machine: the record keeps the identity its first failure gave it, and the trail holds
      entries of this case alone, in order of time, each cited for a move its rule allows. */
  lemma RecordsAreKept(f: NewFailure, openedAt: Instant, openClock: Clock, events: seq<Event>,
                       cfg: Config, calendar: Calendar)
    requires ValidConfig(cfg) && FairHistory(f, openedAt, openClock, events, cfg, calendar)
    ensures var s := Reached(f, openedAt, openClock, events, cfg, calendar);
            && IdentityOf(s.rec) == OpenedIdentity(f, openedAt, openClock, cfg)
            && WellKept(s.trail, f.caseId, openedAt, s.now)
  {
    OpenKeepsInv(f, cfg, openedAt, openClock);
    OpensOnRecord(f, cfg, openedAt, openClock);
    RunStaysOnRecord(Open(f, cfg, openedAt, openClock), events, OpenedIdentity(f, openedAt, openClock, cfg), cfg,
                     calendar);
  }

  lemma ServeStaysOnRecord(s: Sys, e: Event, id: Identity, cfg: Config, calendar: Calendar)
    requires ValidConfig(cfg) && Fair(s, e, cfg, calendar) && Rested(s.rec) && OnRecord(s, id)
    ensures OnRecord(Serve(s, e, cfg, calendar), id)
  {
    if !e.call.Execute? {
      StepStaysOnRecord(s, e, id, cfg, calendar);
    } else {
      var more := [AppliedEntry(s.rec.caseId, e.at)];
      WrittenIsKept(s.trail, [], id.caseId, id.openedAt, s.now, e.at, e.at);
      assert s.trail + [] == s.trail;
      WrittenIsKept(s.trail, more, id.caseId, id.openedAt, s.now, e.at, e.at);
    }
  }

  lemma {:induction false} ServiceStaysOnRecord(s: Sys, t: Sys, events: seq<Event>, id: Identity,
                                                cfg: Config, calendar: Calendar)
    requires ValidConfig(cfg) && Mirrors(s, t) && Inv(t, Budget(cfg)) && FairService(s, events, cfg, calendar)
    requires OnRecord(s, id)
    ensures OnRecord(ServeAll(s, events, cfg, calendar), id)
    decreases |events|
  {
    if events == [] {
    } else {
      var e := Mirrored(s, events[0]);
      TellsRested(ReplayOf(t.trail), t.rec);
      ServeStaysOnRecord(s, events[0], id, cfg, calendar);
      ServeMirrors(s, t, events[0], cfg, calendar);
      StepKeepsInv(t, e, cfg, calendar);
      ServiceStaysOnRecord(Serve(s, events[0], cfg, calendar), Step(t, e, cfg, calendar), events[1..], id, cfg,
                           calendar);
    }
  }

  /** And the same of every run through the service. */
  lemma ServedRecordsAreKept(f: NewFailure, openedAt: Instant, openClock: Clock, events: seq<Event>,
                             cfg: Config, calendar: Calendar)
    requires ValidConfig(cfg) && FairlyServed(f, openedAt, openClock, events, cfg, calendar)
    ensures var s := Served(f, openedAt, openClock, events, cfg, calendar);
            && IdentityOf(s.rec) == OpenedIdentity(f, openedAt, openClock, cfg)
            && WellKept(s.trail, f.caseId, openedAt, s.now)
  {
    var s := Open(f, cfg, openedAt, openClock);
    OpenKeepsInv(f, cfg, openedAt, openClock);
    OpensOnRecord(f, cfg, openedAt, openClock);
    ServiceStaysOnRecord(s, s, events, OpenedIdentity(f, openedAt, openClock, cfg), cfg, calendar);
  }

  // ---- The decisions and the trail ------------------------------------------------------------------

  predicate Schedules(e: AuditEntry) { e.from == NoticeSent && e.to == RetryScheduled }

  /** The slots the schedule entries carry, and the instants of the approved executions, in order. */
  function SlotsOf(trail: seq<AuditEntry>): seq<Option<Instant>> {
    if trail == [] then []
    else
      var last := trail[|trail| - 1];
      SlotsOf(trail[..|trail| - 1]) + (if Schedules(last) then [last.scheduledAt] else [])
  }

  function ExecutionInstants(trail: seq<AuditEntry>): (r: seq<Instant>)
    ensures |r| == CountExecutions(trail)
  {
    if trail == [] then []
    else
      var last := trail[|trail| - 1];
      ExecutionInstants(trail[..|trail| - 1]) + (if IsExecution(last) then [last.timestamp] else [])
  }

  /** One decision per schedule entry, numbered in order, for this case and that slot; executed at the
      instant of its execution entry, if there is one. */
  ghost predicate Booked(s: Sys) {
    BooksMatch(s.decisions, s.rec.caseId, SlotsOf(s.trail), ExecutionInstants(s.trail))
  }

  ghost predicate BooksMatch(decisions: map<int, RetryDecision>, c: CaseId, slots: seq<Option<Instant>>,
                             executions: seq<Instant>) {
    && (forall n :: n in decisions <==> 1 <= n <= |slots|)
    && (forall n :: n in decisions ==> decisions[n] == Decided(c, n, slots[n - 1], executions))
    && (forall i :: 0 <= i < |slots| ==> slots[i].Some?)
    && |executions| <= |slots|
  }

  function Decided(c: CaseId, n: AttemptNumber, slot: Option<Instant>, executions: seq<Instant>): RetryDecision {
    RetryDecision(c, n, SlotValue(slot), if n <= |executions| then Some(executions[n - 1]) else None)
  }

  lemma SlotIsBooked(decisions: map<int, RetryDecision>, c: CaseId, slots: seq<Option<Instant>>,
                     executions: seq<Instant>, slot: Instant)
    requires BooksMatch(decisions, c, slots, executions) && |slots| == |executions|
    ensures var n := |slots| + 1;
            BooksMatch(decisions[n := RetryDecision(c, n, slot, None)], c, slots + [Some(slot)], executions)
  {
  }

  lemma InstantIsBooked(decisions: map<int, RetryDecision>, c: CaseId, slots: seq<Option<Instant>>,
                        executions: seq<Instant>, at: Instant)
    requires BooksMatch(decisions, c, slots, executions) && |executions| < |slots|
    ensures var n := |executions| + 1;
            && n in decisions
            && BooksMatch(decisions[n := decisions[n].(executedAt := Some(at))], c, slots, executions + [at])
  {
  }

  function SlotValue(slot: Option<Instant>): Instant { if slot.Some? then slot.value else 0 }

  lemma {:induction false} SlotsAppend(trail: seq<AuditEntry>, more: seq<AuditEntry>)
    ensures SlotsOf(trail + more) == SlotsOf(trail) + SlotsOf(more)
    decreases |more|
  {
    if more == [] {
      assert trail + more == trail;
    } else {
      var n := |more| - 1;
      assert (trail + more)[..|trail| + n] == trail + more[..n];
      SlotsAppend(trail, more[..n]);
    }
  }

  lemma {:induction false} InstantsAppend(trail: seq<AuditEntry>, more: seq<AuditEntry>)
    ensures ExecutionInstants(trail + more) == ExecutionInstants(trail) + ExecutionInstants(more)
    decreases |more|
  {
    if more == [] {
      assert trail + more == trail;
    } else {
      var n := |more| - 1;
      assert (trail + more)[..|trail| + n] == trail + more[..n];
      InstantsAppend(trail, more[..n]);
    }
  }

  /** Entries that neither schedule nor execute. */
  predicate Plain(entries: seq<AuditEntry>) {
    forall i :: 0 <= i < |entries| ==> !Schedules(entries[i]) && !IsExecution(entries[i])
  }

  lemma {:induction false} PlainBooksNothing(entries: seq<AuditEntry>)
    requires Plain(entries)
    ensures SlotsOf(entries) == [] && ExecutionInstants(entries) == []
  {
    if entries == [] {
    } else {
      PlainBooksNothing(entries[..|entries| - 1]);
    }
  }

  lemma PlainKeepsBooks(s: Sys, o: Outcome)
    requires Booked(s) && Plain(o.entries) && o.rec.caseId == s.rec.caseId
    ensures Booked(Keep(s, o))
  {
    SlotsAppend(s.trail, o.entries);
    InstantsAppend(s.trail, o.entries);
    PlainBooksNothing(o.entries);
    assert SlotsOf(s.trail) + [] == SlotsOf(s.trail);
    assert ExecutionInstants(s.trail) + [] == ExecutionInstants(s.trail);
  }

  lemma NoticeIsBooked(s: Sys, at: Instant, slot: Instant)
    requires Booked(s) && |SlotsOf(s.trail)| == s.rec.retriesUsed == |ExecutionInstants(s.trail)|
    ensures Booked(Notify(s, at, slot))
  {
    var entries := AfterNotice(s.rec, at, slot).entries;
    var slots, executions := SlotsOf(s.trail), ExecutionInstants(s.trail);
    NoticeBooks(s.rec, at, slot);
    SlotsAppend(s.trail, entries);
    InstantsAppend(s.trail, entries);
    assert executions + [] == executions;
    SlotIsBooked(s.decisions, s.rec.caseId, slots, executions, slot);
  }

  lemma NoticeBooks(rec: CaseRecord, at: Instant, slot: Instant)
    ensures var entries := AfterNotice(rec, at, slot).entries;
            SlotsOf(entries) == [Some(slot)] && ExecutionInstants(entries) == []
  {
    var entries := AfterNotice(rec, at, slot).entries;
    var front := entries[..1];
    assert front == [entries[0]] && front[..0] == [];
    PlainBooksNothing(front);
  }

  lemma ExecutionIsBooked(s: Sys, n: int, at: Instant)
    requires Booked(s) && Executes(s, Execute(n)) && n == |ExecutionInstants(s.trail)| + 1
    ensures Booked(ExecuteAttempt(s, n, at))
  {
    var entries := AfterExecution(s.rec, at).entries;
    var slots, executions := SlotsOf(s.trail), ExecutionInstants(s.trail);
    assert entries[..0] == [] && SlotsOf(entries) == [] && ExecutionInstants(entries) == [at];
    SlotsAppend(s.trail, entries);
    InstantsAppend(s.trail, entries);
    assert slots + [] == slots;
    InstantIsBooked(s.decisions, s.rec.caseId, slots, executions, at);
  }

  lemma OthersArePlain(s: Sys, e: Event, cfg: Config, calendar: Calendar)
    requires ValidConfig(cfg) && !e.call.SendNotice? && !e.call.Execute? && Kept(s, e, cfg, calendar).Some?
    ensures var o := Kept(s, e, cfg, calendar).value; Plain(o.entries) && o.rec.caseId == s.rec.caseId
  {
  }

  /** What the invariant says about the books: a pending notice finds one schedule and one execution per
      retry used, and only the decision after the last execution can be executed. */
  lemma BooksCount(s: Sys, budget: nat)
    requires Inv(s, budget) && Booked(s) && ReplayOf(s.trail).execs == CountExecutions(s.trail)
    ensures s.rec.state == NoticePending ==>
              |SlotsOf(s.trail)| == s.rec.retriesUsed == |ExecutionInstants(s.trail)|
    ensures forall n :: Executes(s, Execute(n)) ==> n == |ExecutionInstants(s.trail)| + 1
  {
    var k, r := |SlotsOf(s.trail)|, s.rec.retriesUsed;
    if s.rec.state == NoticePending {
      assert k in s.decisions <==> 1 <= k;
      assert r in s.decisions <==> 1 <= r;
    }
  }

  lemma NoticeStepBooks(s: Sys, e: Event, cfg: Config, calendar: Calendar)
    requires ValidConfig(cfg) && Fair(s, e, cfg, calendar) && e.call.SendNotice? && Booked(s)
    requires s.rec.state == NoticePending ==>
               |SlotsOf(s.trail)| == s.rec.retriesUsed == |ExecutionInstants(s.trail)|
    ensures Booked(Step(s, e, cfg, calendar))
  {
    if s.rec.state == NoticePending {
      NoticeIsBooked(s.(now := e.call.planAt), e.at, Slot(s, e.call, cfg, calendar).value);
    }
  }

  lemma ExecuteStepBooks(s: Sys, e: Event, cfg: Config, calendar: Calendar)
    requires ValidConfig(cfg) && e.call.Execute? && Booked(s)
    requires Executes(s, e.call) ==> e.call.attempt == |ExecutionInstants(s.trail)| + 1
    ensures Booked(Step(s, e, cfg, calendar))
  {
    StepExecutes(s, e, cfg, calendar);
    if Executes(s, e.call) {
      ExecutionIsBooked(s.(now := e.at), e.call.attempt, e.at);
    }
  }

  lemma OtherStepBooks(s: Sys, e: Event, cfg: Config, calendar: Calendar)
    requires ValidConfig(cfg) && !e.call.SendNotice? && !e.call.Execute? && Booked(s)
    ensures Booked(Step(s, e, cfg, calendar))
  {
    StepIsKept(s, e, cfg, calendar);
    if Kept(s, e, cfg, calendar).Some? {
      OthersArePlain(s, e, cfg, calendar);
      PlainKeepsBooks(s.(now := e.at), Kept(s, e, cfg, calendar).value);
    }
  }

  lemma StepStaysBooked(s: Sys, e: Event, cfg: Config, calendar: Calendar)
    requires ValidConfig(cfg) && Fair(s, e, cfg, calendar) && Inv(s, Budget(cfg)) && Booked(s)
    ensures Booked(Step(s, e, cfg, calendar))
  {
    ReplayCounts(s.trail);
    BooksCount(s, Budget(cfg));
    if e.call.SendNotice? {
      NoticeStepBooks(s, e, cfg, calendar);
    } else if e.call.Execute? {
      ExecuteStepBooks(s, e, cfg, calendar);
    } else {
      OtherStepBooks(s, e, cfg, calendar);
    }
  }

  lemma {:induction false} RunStaysBooked(s: Sys, events: seq<Event>, cfg: Config, calendar: Calendar)
    requires ValidConfig(cfg) && Inv(s, Budget(cfg)) && FairRun(s, events, cfg, calendar) && Booked(s)
    ensures Booked(Run(s, events, cfg, calendar))
    decreases |events|
  {
    if events == [] {
    } else {
      StepStaysBooked(s, events[0], cfg, calendar);
      StepKeepsInv(s, events[0], cfg, calendar);
      RunStaysBooked(Step(s, events[0], cfg, calendar), events[1..], cfg, calendar);
    }
  }

  /** Every run of the machine: the decisions on file are the schedule entries of the trail, one for each, in
      order, with the slot the entry carries and the instant of its execution. */
  lemma DecisionsAreAudited(f: NewFailure, openedAt: Instant, openClock: Clock, events: seq<Event>,
                            cfg: Config, calendar: Calendar)
    requires ValidConfig(cfg) && FairHistory(f, openedAt, openClock, events, cfg, calendar)
    ensures Booked(Reached(f, openedAt, openClock, events, cfg, calendar))
  {
    var s := Open(f, cfg, openedAt, openClock);
    OpenKeepsInv(f, cfg, openedAt, openClock);
    OpensPlain(f, cfg, openedAt, openClock);
    PlainBooksNothing(s.trail);
    RunStaysBooked(s, events, cfg, calendar);
  }

  lemma OpensPlain(f: NewFailure, cfg: Config, now: Instant, clock: Clock)
    requires ValidConfig(cfg)
    ensures Plain(Opened(f, cfg, now, clock).entries)
  {
  }
}
