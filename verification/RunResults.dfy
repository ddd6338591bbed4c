/** What holds of every run of a case: replay, the shape of the commit log, the retry cap, the bound on
    the number of calls, and the neutrality of throttling. */
module RunResults {
  import opened Models
  import opened Slots
  import opened CaseMachine
  import opened TrailMonitor
  import opened CaseRuns

  /** The system after a first failure and any sequence of calls. */
  function Reached(f: NewFailure, openedAt: Instant, openClock: Clock, events: seq<Event>,
                   cfg: Config, calendar: Calendar): Sys
    requires ValidConfig(cfg)
  {
    Run(Open(f, cfg, openedAt, openClock), events, cfg, calendar)
  }

  predicate FairHistory(f: NewFailure, openedAt: Instant, openClock: Clock, events: seq<Event>,
                        cfg: Config, calendar: Calendar)
    requires ValidConfig(cfg)
  {
    FairRun(Open(f, cfg, openedAt, openClock), events, cfg, calendar)
  }

  lemma ReachedInv(f: NewFailure, openedAt: Instant, openClock: Clock, events: seq<Event>,
                   cfg: Config, calendar: Calendar)
    requires ValidConfig(cfg) && FairHistory(f, openedAt, openClock, events, cfg, calendar)
    ensures Inv(Reached(f, openedAt, openClock, events, cfg, calendar), Budget(cfg))
  {
    OpenKeepsInv(f, cfg, openedAt, openClock);
    RunKeepsInv(Open(f, cfg, openedAt, openClock), events, cfg, calendar);
  }

  /** Replay: the trail is a walk from RECEIVED to the current state, it assigns exactly the case's
      bucket, and its RETRY_EVAL entries are the retries used. */
  lemma TrailReconstructsCase(f: NewFailure, openedAt: Instant, openClock: Clock, events: seq<Event>,
                              cfg: Config, calendar: Calendar)
    requires ValidConfig(cfg) && FairHistory(f, openedAt, openClock, events, cfg, calendar)
    ensures var s := Reached(f, openedAt, openClock, events, cfg, calendar);
            && Walk(s.trail, Edge)
            && s.rec.state == StateAt(s.trail, |s.trail|)
            && s.rec.retriesUsed == CountTo(s.trail, RetryEval)
            && (forall b :: SomeAssigns(s.trail, b) <==> s.rec.bucket == Some(b))
  {
    ReachedInv(f, openedAt, openClock, events, cfg, calendar);
    var s := Reached(f, openedAt, openClock, events, cfg, calendar);
    ReplayCounts(s.trail);
    ReplayBuckets(s.trail);
    forall b ensures SomeAssigns(s.trail, b) <==> s.rec.bucket == Some(b) {
      assert b == TreatmentBucket || b == ControlBucket;
    }
  }

  /** The commit log holds the attempts 1..e, where e counts the executions in the trail; e is the
      retries used or one more and stays within the budget; of the decisions on file only the newest can
      be committed, and a due case always has it; and a new decision never meets one on file. */
  lemma CommitLogShape(f: NewFailure, openedAt: Instant, openClock: Clock, events: seq<Event>,
                       cfg: Config, calendar: Calendar)
    requires ValidConfig(cfg) && FairHistory(f, openedAt, openClock, events, cfg, calendar)
    ensures var s := Reached(f, openedAt, openClock, events, cfg, calendar);
            var e, r := CountExecutions(s.trail), s.rec.retriesUsed;
            && (forall n :: n in s.log <==> 1 <= n <= e)
            && r <= e <= r + 1
            && e <= Budget(cfg)
            && (s.rec.state == RetryScheduled ==>
                  forall n :: n in s.decisions && n !in s.log <==> n == r + 1)
            && (s.rec.state == NoticePending ==> r + 1 !in s.decisions)
  {
    ReachedInv(f, openedAt, openClock, events, cfg, calendar);
    ReplayCounts(Reached(f, openedAt, openClock, events, cfg, calendar).trail);
  }

  /** The retry cap is kept by every run exactly when it is at least one. */
  lemma RetryCapHoldsExactly(f: NewFailure, openedAt: Instant, openClock: Clock, cfg: Config, calendar: Calendar)
    requires ValidConfig(cfg) && !f.isControl && Triage(f, cfg).0 == NoticePending
    ensures (forall events :: FairHistory(f, openedAt, openClock, events, cfg, calendar) ==>
               Reached(f, openedAt, openClock, events, cfg, calendar).rec.retriesUsed <= cfg.maxRetries)
            <==> 1 <= cfg.maxRetries
  {
    if 1 <= cfg.maxRetries {
      forall events | FairHistory(f, openedAt, openClock, events, cfg, calendar)
        ensures Reached(f, openedAt, openClock, events, cfg, calendar).rec.retriesUsed <= cfg.maxRetries
      {
        CommitLogShape(f, openedAt, openClock, events, cfg, calendar);
      }
    } else {
      var events := OneRetry(f, openedAt, openClock, cfg, calendar);
      assert Reached(f, openedAt, openClock, events, cfg, calendar).rec.retriesUsed > cfg.maxRetries;
    }
  }

  /** A run that notifies, executes and fails once. */
  lemma OneRetry(f: NewFailure, openedAt: Instant, openClock: Clock, cfg: Config, calendar: Calendar)
    returns (events: seq<Event>)
    requires ValidConfig(cfg) && !f.isControl && Triage(f, cfg).0 == NoticePending
    ensures FairHistory(f, openedAt, openClock, events, cfg, calendar)
    ensures Reached(f, openedAt, openClock, events, cfg, calendar).rec.retriesUsed == 1
  {
    var at := openedAt;
    var e1 := Event(at, SendNotice(at, RealClock, false, None, None));
    var e2, e3 := Event(at, Execute(1)), Event(at, PaymentFailed(true));
    events := [e1, e2, e3];
    var s0 := Open(f, cfg, openedAt, openClock);
    var s1 := Step(s0, e1, cfg, calendar);
    var s2 := Step(s1, e2, cfg, calendar);
    assert s1.rec.state == RetryScheduled && 1 in s1.decisions && s1.log == {};
    assert s2.rec.state == RetryExecuted && s2.rec.retriesUsed == 0;
    assert events[1..] == [e2, e3] && [e2, e3][1..] == [e3] && [e3][1..] == [];
    assert Run(s2, [e3], cfg, calendar) == Step(s2, e3, cfg, calendar);
    assert Run(s1, [e2, e3], cfg, calendar) == Run(s2, [e3], cfg, calendar);
    assert FairRun(s2, [e3], cfg, calendar);
    assert FairRun(s1, [e2, e3], cfg, calendar);
  }

  // ---- Termination --------------------------------------------------------------------------------

  /** The productive calls a case can still make. */
  function Potential(rec: CaseRecord, budget: nat): int {
    var left := 3 * (budget - rec.retriesUsed);
    if rec.state == NoticePending then left + 1
    else if Waiting(rec.state) then left
    else if rec.state == RetryExecuted then left - 1
    else if rec.state == Escalated || rec.state == AfaRequired || rec.state == ControlHeld then 1
    else 0
  }

  /** A call outside the throttle pair that moves the case. */
  predicate Productive(s: Sys, e: Event, cfg: Config, calendar: Calendar)
    requires ValidConfig(cfg)
  {
    !e.call.Throttle? && !e.call.Release? && Step(s, e, cfg, calendar).rec.state != s.rec.state
  }

  function ProductiveCalls(s: Sys, events: seq<Event>, cfg: Config, calendar: Calendar): nat
    requires ValidConfig(cfg)
    decreases |events|
  {
    if events == [] then 0
    else
      (if Productive(s, events[0], cfg, calendar) then 1 else 0) +
      ProductiveCalls(Step(s, events[0], cfg, calendar), events[1..], cfg, calendar)
  }

  predicate Funded(rec: CaseRecord, budget: nat) {
    && Resting(rec.state)
    && (rec.state == NoticePending || Waiting(rec.state) || rec.state == RetryExecuted ==> rec.retriesUsed < budget)
  }

  /** Moving from one record to the next is paid for. */
  predicate Paid(before: CaseRecord, after: CaseRecord, budget: nat) {
    Potential(after, budget) + (if after.state != before.state then 1 else 0) <= Potential(before, budget)
  }

  lemma FailurePays(rec: CaseRecord, business: bool, cfg: Config, at: Instant)
    requires Funded(rec, Budget(cfg))
    ensures Paid(rec, AfterFailure(rec, business, cfg, at).rec, Budget(cfg))
  {
  }

  lemma SuccessPays(rec: CaseRecord, amount: int, at: Instant, budget: nat)
    requires Funded(rec, budget)
    ensures Paid(rec, AfterSuccess(rec, amount, at).rec, budget)
  {
  }

  lemma OutcomePays(s: Sys, e: Event, cfg: Config, calendar: Calendar)
    requires ValidConfig(cfg) && Funded(s.rec, Budget(cfg))
    ensures var o := Kept(s, e, cfg, calendar);
            (o.Some? ==>
              if e.call.Throttle? || e.call.Release?
              then Potential(o.value.rec, Budget(cfg)) == Potential(s.rec, Budget(cfg))
              else Paid(s.rec, o.value.rec, Budget(cfg)))
  {
    match e.call
    case PaymentFailed(business) => FailurePays(s.rec, business, cfg, e.at);
    case PaymentSucceeded(amount) => SuccessPays(s.rec, amount, e.at, Budget(cfg));
    case _ =>
  }

  lemma {:induction false} RunPays(s: Sys, events: seq<Event>, cfg: Config, calendar: Calendar)
    requires ValidConfig(cfg) && Inv(s, Budget(cfg)) && FairRun(s, events, cfg, calendar)
    ensures ProductiveCalls(s, events, cfg, calendar) + Potential(Run(s, events, cfg, calendar).rec, Budget(cfg))
            <= Potential(s.rec, Budget(cfg))
    decreases |events|
  {
    if events == [] {
    } else {
      OutcomePays(s, events[0], cfg, calendar);
      StepKeeps(s, events[0], cfg, calendar);
      StepKeepsInv(s, events[0], cfg, calendar);
      RunPays(Step(s, events[0], cfg, calendar), events[1..], cfg, calendar);
    }
  }

  /** Every run makes at most three productive calls per retry of the budget, and one more. */
  lemma RunsAreBounded(f: NewFailure, openedAt: Instant, openClock: Clock, events: seq<Event>,
                       cfg: Config, calendar: Calendar)
    requires ValidConfig(cfg) && FairHistory(f, openedAt, openClock, events, cfg, calendar)
    ensures ProductiveCalls(Open(f, cfg, openedAt, openClock), events, cfg, calendar) <= 3 * Budget(cfg) + 1
  {
    var s := Open(f, cfg, openedAt, openClock);
    OpenKeepsInv(f, cfg, openedAt, openClock);
    RunPays(s, events, cfg, calendar);
    RunKeepsInv(s, events, cfg, calendar);
    assert 0 <= Potential(Run(s, events, cfg, calendar).rec, Budget(cfg));
  }

  // ---- Throttling ---------------------------------------------------------------------------------

  predicate OnlyThrottling(events: seq<Event>) {
    forall i :: 0 <= i < |events| ==> events[i].call.Throttle? || events[i].call.Release?
  }

  /** Any number of throttle cycles changes nothing but the waiting state: not the retries used, not
      the decisions, not the log. */
  lemma {:induction false} ThrottlingIsNeutral(s: Sys, events: seq<Event>, cfg: Config, calendar: Calendar)
    requires ValidConfig(cfg) && Waiting(s.rec.state) && OnlyThrottling(events)
    ensures var t := Run(s, events, cfg, calendar);
            && Waiting(t.rec.state)
            && t.rec == s.rec.(state := t.rec.state)
            && t.log == s.log && t.decisions == s.decisions
            && CountExecutions(t.trail) == CountExecutions(s.trail)
    decreases |events|
  {
    if events == [] {
    } else {
      var t := Step(s, events[0], cfg, calendar);
      assert t.trail != s.trail ==> t.trail[..|t.trail| - 1] == s.trail;
      ThrottlingIsNeutral(t, events[1..], cfg, calendar);
    }
  }
}
